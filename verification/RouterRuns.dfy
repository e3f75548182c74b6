/** What the router calls keep, and whole runs. */
module RouterRuns {
  import opened Text
  import opened Routes
  import opened RouterTables
  import opened Routers
  import opened RouterPairing

  // ---------------------------------------------------------------------------------------------
  // Attaching
  // ---------------------------------------------------------------------------------------------

  /** The legs of `t` are those of `s` and one more. */
  ghost predicate OneMoreLeg(s: Db, t: Db, l: LrpRow, row: LspRow, r: LrId, ls: LsId, ip: Ip) {
    forall k, o, q, n, a :: Leg(t, k, o, q, n, a) <==>
      Leg(s, k, o, q, n, a) || (k == l && o == row && q == r && n == ls && a == ip)
  }

  /** The legs of `t` are those of `s` that are not on the router ports gone. */
  ghost predicate LegsWithout(s: Db, t: Db, gone: set<LrpRow>) {
    forall k, o, q, n, a :: Leg(t, k, o, q, n, a) <==> Leg(s, k, o, q, n, a) && k !in gone
  }

  /** Router and subnet rows and reservations may change; what ties ports together may not. */
  ghost predicate SamePorts(s: Db, t: Db) {
    && t.lsps == s.lsps && t.lrps == s.lrps && t.switches.Keys == s.switches.Keys && s.routers.Keys <= t.routers.Keys
    && t.subnets.Keys == s.subnets.Keys && forall d :: d in s.subnets ==> t.subnets[d].ls == s.subnets[d].ls
  }

  lemma SamePortsSound(s: Db, t: Db)
    requires Sound(s) && SamePorts(s, t)
    ensures Sound(t) && SameLegs(s, t)
  {
    hide HasLsp, HasLrp, Pair;
    OtherTablesSound(s, t);
  }

  lemma SameThenMore(s: Db, a: Db, b: Db, t: Db, l: LrpRow, row: LspRow, r: LrId, ls: LsId, ip: Ip)
    requires SameLegs(s, a) && OneMoreLeg(a, b, l, row, r, ls, ip) && SameLegs(b, t)
    ensures OneMoreLeg(s, t, l, row, r, ls, ip)
  {
    hide Leg;
  }

  lemma SameThenSame(s: Db, a: Db, t: Db)
    requires SameLegs(s, a) && SameLegs(a, t)
    ensures SameLegs(s, t)
  {
    hide Leg;
  }

  lemma SameThenWithout(s: Db, a: Db, t: Db, gone: set<LrpRow>)
    requires LegsWithout(s, a, gone) && SameLegs(a, t)
    ensures LegsWithout(s, t, gone)
  {
    hide Leg;
  }

  lemma SameSelf(s: Db)
    ensures SameLegs(s, s)
  {
  }

  lemma GatewayAddedKeeps(s: Db, r: LrId, gw: Gateway, port: NewPort, l: LrpRow)
    requires Sound(s) && NewLsp(s, port) && l !in s.lrps
    requires r in s.routers && gw.ls in s.switches && gw.subnet in s.subnets && s.subnets[gw.subnet].gateway.Some?
    ensures var t := GatewayAdded(s, r, gw, port, l).0;
            && Sound(t) && OneMoreLeg(s, t, l, port.row, r, gw.ls, gw.ip)
            && t.subnets == s.subnets && t.routers.Keys == s.routers.Keys
  {
    hide Sound, SameLegs, OneMoreLeg, NewLsp, RoutesAdded;
    var reserved := WithExclude(s, gw.ls, s.switches[gw.ls] + [gw.ip]);
    SamePortsSound(s, reserved);
    SameLspsNew(s, reserved, port);
    var placed := Attached(reserved, port.row, port.name, gw.ls, GatewayOwner, l, r, gw.ip);
    AttachedMore(reserved, port.row, port.name, gw.ls, GatewayOwner, l, r, gw.ip);
    SamePortsSound(placed, GatewayAdded(s, r, gw, port, l).0);
    SameThenMore(s, reserved, placed, GatewayAdded(s, r, gw, port, l).0, l, port.row, r, gw.ls, gw.ip);
  }

  lemma AttachedMore(s: Db, row: LspRow, name: PortName, ls: LsId, owner: Owner, l: LrpRow, r: LrId, ip: Ip)
    requires Sound(s) && Attachable(s, row, name, ls, l, r) && owner in [InterfaceOwner, GatewayOwner]
    ensures var t := Attached(s, row, name, ls, owner, l, r, ip); Sound(t) && OneMoreLeg(s, t, l, row, r, ls, ip)
  {
    hide Sound, Leg;
    AttachedSound(s, row, name, ls, owner, l, r, ip);
  }

  lemma SameLspsNew(s: Db, t: Db, port: NewPort)
    requires NewLsp(s, port) && t.lsps == s.lsps
    ensures NewLsp(t, port)
  {
  }

  /** The legs after a call that may attach a gateway. */
  ghost predicate GatewayLeg(s: Db, t: Db, gw: Option<Gateway>, r: LrId, port: NewPort, l: LrpRow) {
    SameLegs(s, t) || (gw.Some? && OneMoreLeg(s, t, l, port.row, r, gw.value.ls, gw.value.ip))
  }

  lemma RouterRowSound(s: Db, r: LrId, router: Lr)
    requires Sound(s)
    ensures var t := WithRouter(s, r, router);
            && Sound(t) && SameLegs(s, t) && t.subnets == s.subnets && t.switches == s.switches && t.lsps == s.lsps
            && t.lrps == s.lrps && t.routers.Keys == s.routers.Keys + {r} && t.routers[r] == router
  {
    hide Sound, SameLegs;
    SamePortsSound(s, WithRouter(s, r, router));
  }

  /** A router row written, and a gateway added to the router. */
  lemma GatewayOnRow(s: Db, r: LrId, router: Lr, gw: Gateway, port: NewPort, l: LrpRow, leases: Leases)
    requires Sound(s) && Refers(s) && NewLsp(s, port) && l !in s.lrps && GatewayFits(s, gw, leases)
    ensures var made := WithRouter(s, r, router);
            && r in made.routers && gw.ls in made.switches && gw.subnet in made.subnets
            && made.subnets[gw.subnet].gateway.Some?
            && var t := GatewayAdded(made, r, gw, port, l).0;
               && Sound(t) && OneMoreLeg(s, t, l, port.row, r, gw.ls, gw.ip)
               && t.subnets == s.subnets && t.routers.Keys == s.routers.Keys + {r}
  {
    hide Sound, SameLegs, OneMoreLeg, NewLsp, GatewayAdded, Available, SubnetOn, WithRouter, Refers;
    var made := WithRouter(s, r, router);
    RouterRowSound(s, r, router);
    SubnetIsThere(s, gw.ls);
    SameLspsNew(s, made, port);
    GatewayAddedKeeps(made, r, gw, port, l);
    var t := GatewayAdded(made, r, gw, port, l).0;
    SameSelf(t);
    SameThenMore(s, made, t, t, l, port.row, r, gw.ls, gw.ip);
  }

  lemma RouterAddedKeeps(s: Db, r: LrId, gw: Option<Gateway>, port: NewPort, l: LrpRow, routes: seq<Route>,
                         leases: Leases)
    requires Sound(s) && r !in s.routers && NewLsp(s, port) && l !in s.lrps
    ensures var t := RouterAdded(s, r, gw, port, l, routes, leases).0;
            && Sound(t) && GatewayLeg(s, t, gw, r, port, l)
            && t.subnets == s.subnets && s.routers.Keys <= t.routers.Keys
  {
    SoundUnique(s);
    hide Sound, SameLegs, OneMoreLeg, NewLsp, RoutesAdded, GatewayAdded, HasDefault, GatewayFits, WithRouter, Refers;
    SameSelf(s);
    var t := RouterAdded(s, r, gw, port, l, routes, leases).0;
    if gw == None || (GatewayFits(s, gw.value, leases) && !HasDefault(routes)) {
      var made := WithRouter(s, r, Lr(None, map[]));
      RouterRowSound(s, r, Lr(None, map[]));
      if gw == None {
        RouterRowSound(made, r, made.routers[r].(routes := RoutesAdded(made.routers[r].routes, routes).0));
        SameThenSame(s, made, t);
      } else {
        GatewayOnRow(s, r, Lr(None, map[]), gw.value, port, l, leases);
        var placed := GatewayAdded(made, r, gw.value, port, l).0;
        RouterRowSound(placed, r, placed.routers[r].(routes := RoutesAdded(placed.routers[r].routes, routes).0));
        SameSelf(s);
        SameThenMore(s, s, placed, t, l, port.row, r, gw.value.ls, gw.value.ip);
      }
    }
  }

  lemma SubnetIsThere(s: Db, ls: LsId)
    requires Refers(s)
    ensures SubnetOn(s, ls).Some? ==> SubnetIsOn(s, SubnetOn(s, ls).value, ls) && ls in s.switches
  {
  }

  ghost predicate GatewayMade(s: Db, t: Db, gw: Option<Gateway>, r: LrId, port: NewPort, l: LrpRow) {
    Sound(t) && GatewayLeg(s, t, gw, r, port, l) && t.subnets == s.subnets && t.routers.Keys == s.routers.Keys
  }

  lemma RouterUpdatedKeeps(s: Db, r: LrId, gw: Option<Gateway>, port: NewPort, l: LrpRow, change: Option<RouteChange>,
                           leases: Leases)
    requires Sound(s) && Refers(s) && NewLsp(s, port) && l !in s.lrps && (change.Some? ==> InAdded(change.value))
    ensures GatewayMade(s, RouterUpdated(s, r, gw, port, l, change, leases).0, gw, r, port, l)
  {
    hide Sound, SameLegs, OneMoreLeg, NewLsp, RoutesChanged, GatewayAdded, HasDefault, GatewayFits, WithRouter, Refers;
    SameSelf(s);
    if r in s.routers && (gw.Some? ==> GatewayFits(s, gw.value, leases)) {
      var router := s.routers[r].(routes := RoutesChanged(s.routers[r].routes, change).0);
      RouterRowSound(s, r, router);
      assert s.routers.Keys + {r} == s.routers.Keys;
      if gw.Some? {
        GatewayOnRow(s, r, router, gw.value, port, l, leases);
      }
    }
  }

  /** The dictionary of what is removed keeps the next hops there are. */
  lemma RemovedDict(change: RouteChange, routes: map<Prefix, Hop>)
    requires IsDiff(change, routes)
    ensures (forall p :: p in change.removed ==> p in routes)
            && DictOf(map p | p in change.removed :: routes[p], Pairs(routes) - Wanted(change.requested))
            && (map p | p in change.removed :: routes[p]).Keys == change.removed
  {
    hide IsOrder;
  }

  /** A router whose routes are updated, and nothing else, ends with exactly those requested if and only if
      there is one next hop for each destination. */
  lemma RouterRoutesReconciled(s: Db, r: LrId, port: NewPort, l: LrpRow, change: RouteChange, leases: Leases)
    requires Refers(s) && r in s.routers && IsDiff(change, s.routers[r].routes)
    ensures var (t, ok) := RouterUpdated(s, r, None, port, l, Some(change), leases);
            && r in t.routers
            && ((ok && Pairs(t.routers[r].routes) == Wanted(change.requested)) <==> OneHop(Wanted(change.requested)))
  {
    hide Pairs, Wanted, OneHop, DictOf, Reconciled, Refers;
    var routes := s.routers[r].routes;
    RemovedDict(change, routes);
    ReconciledIffOneHop(routes, change.requested, change.added, map p | p in change.removed :: routes[p], change.order);
  }

  /** Given its first gateway by the same call, it has the default route of the gateway besides. */
  lemma RouterRoutesWithGateway(s: Db, r: LrId, gw: Gateway, port: NewPort, l: LrpRow, change: RouteChange,
                                leases: Leases)
    requires Refers(s) && r in s.routers && IsDiff(change, s.routers[r].routes) && OneHop(Wanted(change.requested))
    requires GatewayFits(s, gw, leases) && !HasDefault(change.requested) && s.routers[r].gatewayPort == None
    ensures gw.subnet in s.subnets && s.subnets[gw.subnet].gateway.Some?
    ensures var (t, ok) := RouterUpdated(s, r, Some(gw), port, l, Some(change), leases);
            && ok && r in t.routers
            && Pairs(t.routers[r].routes) ==
               Wanted(change.requested) +
               {Route(DefaultRoute(s.subnets[gw.subnet].v6), s.subnets[gw.subnet].gateway.value)}
  {
    hide Pairs, Wanted, OneHop, DictOf, Reconciled, Refers, SubnetOn, Available, HasDefault, RoutesAdded, IsOrder;
    hide IsDiff;
    SubnetIsThere(s, gw.ls);
    var final := ReconciledTo(s.routers[r].routes, change);
    var p, hop := DefaultRoute(s.subnets[gw.subnet].v6), s.subnets[gw.subnet].gateway.value;
    NoDefault(change.requested, final, p);
    OneMoreRoute(final, p, hop);
    assert RoutesChanged(s.routers[r].routes, Some(change)) == (final, true);
  }

  lemma ReconciledTo(routes: map<Prefix, Hop>, change: RouteChange) returns (final: map<Prefix, Hop>)
    requires IsDiff(change, routes) && OneHop(Wanted(change.requested))
    ensures InAdded(change) && Reconciled(routes, change.removed, change.order, change.added) == (final, true)
    ensures Pairs(final) == Wanted(change.requested)
  {
    hide Pairs, Wanted, OneHop, DictOf, Reconciled;
    RemovedDict(change, routes);
    ReconciledIffOneHop(routes, change.requested, change.added, map p | p in change.removed :: routes[p], change.order);
    final := Reconciled(routes, change.removed, change.order, change.added).0;
  }

  lemma NoDefault(requested: seq<Route>, routes: map<Prefix, Hop>, p: Prefix)
    requires Pairs(routes) == Wanted(requested) && !HasDefault(requested)
    requires (p == DEFAULT_ROUTE4 || p == DEFAULT_ROUTE6)
    ensures p !in routes
  {
    forall q | q in routes
      ensures q != p
    {
      assert Route(q, routes[q]) in Wanted(requested);
      var i :| 0 <= i < |requested| && requested[i] == Route(q, routes[q]);
    }
  }

  lemma OneMoreRoute(routes: map<Prefix, Hop>, p: Prefix, hop: Hop)
    requires p !in routes
    ensures RoutesAdded(routes, [Route(p, hop)]) == (routes[p := hop], true)
    ensures Pairs(routes[p := hop]) == Pairs(routes) + {Route(p, hop)}
  {
    assert [Route(p, hop)][1..] == [];
    var more := routes[p := hop];
    forall r
      ensures r in Pairs(more) <==> r in Pairs(routes) + {Route(p, hop)}
    {
      if r in Pairs(routes) + {Route(p, hop)} {
        assert r.prefix in more && Route(r.prefix, more[r.prefix]) == r;
      }
      if r in Pairs(more) {
        assert r == Route(p, hop) || (r.prefix in routes && Route(r.prefix, routes[r.prefix]) == r);
      }
    }
  }

  lemma AttachedBySubnetKeeps(s: Db, r: LrId, d: SubnetId, port: NewPort, l: LrpRow, order: seq<LrpRow>)
    requires Sound(s) && NewLsp(s, port) && l !in s.lrps && Lists(s, r, order)
    ensures var (t, ok) := AttachedBySubnet(s, r, d, port, l, order);
            && Sound(t) && t.routers == s.routers && (!ok ==> t == s)
            && (ok ==> r in s.routers && d in s.subnets && s.subnets[d].gateway.Some?
                       && OneMoreLeg(s, t, l, port.row, r, s.subnets[d].ls, s.subnets[d].gateway.value)
                       && t.subnets == s.subnets[d := s.subnets[d].(gatewayRouter := Some(r))])
  {
    SoundUnique(s);
    hide Sound, SameLegs, OneMoreLeg, NewLsp, Scan, Lists, SubnetOn;
    if AttachedBySubnet(s, r, d, port, l, order).1 {
      var subnet := s.subnets[d];
      AttachedMore(s, port.row, port.name, subnet.ls, InterfaceOwner, l, r, subnet.gateway.value);
      var mid := Attached(s, port.row, port.name, subnet.ls, InterfaceOwner, l, r, subnet.gateway.value);
      SamePortsSound(mid, WithGatewayRouter(mid, d, Some(r)));
      SameSelf(s);
      SameThenMore(s, s, mid, WithGatewayRouter(mid, d, Some(r)), l, port.row, r, subnet.ls, subnet.gateway.value);
    }
  }

  lemma AttachedByPortKeeps(s: Db, r: LrId, ref: PortRef, l: LrpRow, order: seq<LrpRow>, leases: Leases)
    requires Sound(s) && l !in s.lrps && Lists(s, r, order)
    ensures var (t, ok) := AttachedByPort(s, r, ref, l, order, leases);
            && Sound(t) && t.routers == s.routers && t.subnets == s.subnets && (!ok ==> t == s)
            && (ok ==> LspAt(s, ref).Some? && LspAt(s, ref).value in s.lsps
                       && var row := LspAt(s, ref).value;
                          PortIp(s.lsps[row], row, leases).Some?
                          && OneMoreLeg(s, t, l, row, r, s.lsps[row].ls, PortIp(s.lsps[row], row, leases).value))
  {
    SoundUnique(s);
    FoundIsThere(s, ref);
    hide Sound, OneMoreLeg, Scan, Lists, SubnetOn, LspAt;
    if AttachedByPort(s, r, ref, l, order, leases).1 {
      var row := LspAt(s, ref).value;
      var p := s.lsps[row];
      AttachedMore(s, row, p.name, p.ls, InterfaceOwner, l, r, PortIp(p, row, leases).value);
    }
  }

  // ---------------------------------------------------------------------------------------------
  // Detaching
  // ---------------------------------------------------------------------------------------------

  /** A port that carries a router port is one of a pair. */
  lemma CarriedPair(s: Db, row: LspRow)
    requires Sound(s) && row in s.lsps && s.lsps[row].routerPort.Some?
    ensures LrpAt(s, s.lsps[row].routerPort.value).Some? && Pair(s, LrpAt(s, s.lsps[row].routerPort.value).value, row)
  {
    hide RouterPortName, LrpAt, HasLsp;
    assert HasLrp(s, row);
    var l :| Pair(s, l, row);
    PairFound(s, l, row);
  }

  /** A router that lists a leg on the network of a subnet is found to be on it, or the search raises. */
  lemma {:induction false} ScanFinds(s: Db, order: seq<LrpRow>, l: LrpRow, row: LspRow, d: SubnetId)
    requires Sound(s) && Pair(s, l, row) && l in order && SubnetOn(s, s.lsps[row].ls) == Some(d)
    requires forall i :: 0 <= i < |order| ==> order[i] in s.lrps
    ensures Scan(s, order, Some(d)) != Some(false)
    decreases |order|
  {
    SoundUnique(s);
    hide Sound, SubnetOn, Pair, LspOf;
    if order[0] == l {
      PairFound(s, l, row);
    } else {
      assert l in order[1..];
      ScanFinds(s, order[1..], l, row, d);
    }
  }

  /** A router that was found not to be on a subnet has no leg on its network. */
  lemma NoLegBefore(s: Db, r: LrId, d: SubnetId, order: seq<LrpRow>)
    requires Sound(s) && Lists(s, r, order) && d in s.subnets && Scan(s, order, Some(d)) == Some(false)
    requires SubnetOn(s, s.subnets[d].ls) == Some(d)
    ensures forall k, o :: Pair(s, k, o) && s.lrps[k].lr == r ==> s.lsps[o].ls != s.subnets[d].ls
  {
    forall k, o | Pair(s, k, o) && s.lrps[k].lr == r
      ensures s.lsps[o].ls != s.subnets[d].ls
    {
      assert k in order;
      if s.lsps[o].ls == s.subnets[d].ls {
        ScanFinds(s, order, k, o, d);
      }
    }
  }

  /** A detachment by port that changes anything takes away the two ports of one interface of the router. */
  lemma DetachedByPortKeeps(s: Db, r: LrId, ref: PortRef, order: seq<LrpRow>)
    returns (l: LrpRow, row: LspRow, d: SubnetId)
    requires Sound(s) && Refers(s) && Lists(s, r, order)
    ensures var t := DetachedByPort(s, r, ref, order).0;
            t != s ==>
              && Sound(t) && Pair(s, l, row) && LspAt(s, ref) == Some(row) && s.lrps[l].lr == r && r in s.routers
              && LegsWithout(s, t, {l}) && t.routers.Keys == s.routers.Keys
              && SubnetOn(s, s.lsps[row].ls) == Some(d) && d in s.subnets
              && t.subnets == if s.subnets[d].gateway == Some(s.lrps[l].ip)
                              then s.subnets[d := s.subnets[d].(gatewayRouter := None)] else s.subnets
  {
    if DetachedByPort(s, r, ref, order).0 == s {
      return 0, 0, 0;
    }
    SoundUnique(s);
    FoundIsThere(s, ref);
    row := LspAt(s, ref).value;
    CarriedPair(s, row);
    l := LrpAt(s, s.lsps[row].routerPort.value).value;
    SubnetIsThere(s, s.lsps[row].ls);
    d := SubnetOn(s, s.lsps[row].ls).value;
    assert l in order && forall i :: 0 <= i < |order| ==> order[i] in s.lrps;
    hide Sound, SameLegs, LegsWithout, LspAt, LrpAt, SubnetOn, Scan, Pair, CleanedUp, Lists;
    ScanFinds(s, order, l, row, d);
    DetachedLegs(s, row, l);
    var gone := Detached(s, row, l);
    var ip := s.lrps[l].ip;
    var isExternal := s.routers[r].gatewayPort.Some? && ref == ByName(s.routers[r].gatewayPort.value);
    CleanedUpSound(gone, r, d, s.subnets[d].gateway == Some(ip), isExternal, s.lsps[row].ls, ip);
    SameThenWithout(s, gone, DetachedByPort(s, r, ref, order).0, {l});
  }

  lemma CleanedUpSound(s: Db, r: LrId, d: SubnetId, isGateway: bool, isExternal: bool, ls: LsId, ip: Ip)
    requires Sound(s) && r in s.routers && d in s.subnets && ls in s.switches
    ensures var t := CleanedUp(s, r, d, isGateway, isExternal, ls, ip).0;
            && Sound(t) && SameLegs(s, t) && t.routers.Keys == s.routers.Keys && t.lsps == s.lsps && t.lrps == s.lrps
            && t.subnets == if isGateway then s.subnets[d := s.subnets[d].(gatewayRouter := None)] else s.subnets
  {
    hide Sound, SameLegs, RemoveOne;
    SamePortsSound(s, CleanedUp(s, r, d, isGateway, isExternal, ls, ip).0);
  }

  lemma DetachedLegs(s: Db, row: LspRow, l: LrpRow)
    requires Sound(s) && Pair(s, l, row)
    ensures Sound(Detached(s, row, l)) && LegsWithout(s, Detached(s, row, l), {l})
  {
    hide Sound, Leg, Pair;
    DetachedSound(s, row, l);
  }

  /** By subnet, every leg of the router on the network of the subnet goes. */
  ghost predicate LegsOf(s: Db, gone: set<LrpRow>, r: LrId, ls: LsId) {
    forall k, o :: Pair(s, k, o) ==> (k in gone <==> s.lrps[k].lr == r && s.lsps[o].ls == ls)
  }

  lemma LegOnIsPair(s: Db, k: LrpRow, o: LspRow, r: LrId, ls: LsId)
    requires Sound(s) && Pair(s, k, o)
    ensures LspOf(s, k) == Some(o)
    ensures LegOn(s, k, r, ls) <==> s.lrps[k].lr == r && s.lsps[o].ls == ls
  {
    SoundUnique(s);
    hide Sound, LspOf, RouterPortName;
    PairFound(s, k, o);
  }

  lemma EveryLrpPairs(s: Db, k: LrpRow) returns (o: LspRow)
    requires Sound(s) && k in s.lrps
    ensures Pair(s, k, o)
  {
    hide HasLrp, RouterPortName;
    assert HasLsp(s, k);
    o :| Pair(s, k, o);
  }

  lemma DetachedBySubnetKeeps(s: Db, r: LrId, d: SubnetId) returns (gone: set<LrpRow>)
    requires Sound(s) && Refers(s) && r in s.routers && d in s.subnets
    ensures var (t, ok) := DetachedBySubnet(s, r, d);
            && Sound(t) && gone == LegPorts(s, r, s.subnets[d].ls) && LegsOf(s, gone, r, s.subnets[d].ls)
            && LegsWithout(s, t, gone) && (ok <==> gone != {})
            && t.routers.Keys == s.routers.Keys
            && t.subnets == if s.subnets[d].gatewayRouter == Some(r)
                            then s.subnets[d := s.subnets[d].(gatewayRouter := None)] else s.subnets
  {
    var ls := s.subnets[d].ls;
    gone := LegPorts(s, r, ls);
    hide Sound, LegPorts, LegRows, SameLegs, LegsWithout, LegsOf, CleanedUp, Refers;
    PairsGo(s, r, ls);
    RemovedLegs(s, LegRows(s, r, ls), gone);
    var mid := s.(lsps := s.lsps - LegRows(s, r, ls), lrps := s.lrps - gone);
    SubnetHasSwitch(s, d);
    CleanedUpSound(mid, r, d, s.subnets[d].gatewayRouter == Some(r), false, ls, 0);
    SameThenWithout(s, mid, DetachedBySubnet(s, r, d).0, gone);
  }

  lemma SubnetHasSwitch(s: Db, d: SubnetId)
    requires Refers(s) && d in s.subnets
    ensures s.subnets[d].ls in s.switches
  {
  }

  lemma PairsGo(s: Db, r: LrId, ls: LsId)
    requires Sound(s)
    ensures var gone, rows := LegPorts(s, r, ls), LegRows(s, r, ls);
            LegsOf(s, gone, r, ls) && forall k, o :: Pair(s, k, o) ==> (k in gone <==> o in rows)
  {
    var gone, rows := LegPorts(s, r, ls), LegRows(s, r, ls);
    SoundUnique(s);
    hide Sound, LspOf, RouterPortName, Unique;
    forall k, o | Pair(s, k, o)
      ensures k in gone <==> s.lrps[k].lr == r && s.lsps[o].ls == ls
      ensures k in gone <==> o in rows
    {
      LegOnIsPair(s, k, o, r, ls);
      if o in rows {
        var l :| l in s.lrps && LegOn(s, l, r, ls) && LspOf(s, l).value == o;
        var other := EveryLrpPairs(s, l);
        LegOnIsPair(s, l, other, r, ls);
        PairIsUnique(s, k, o, l, other);
      }
    }
  }

  lemma RemovedLegs(s: Db, rows: set<LspRow>, gone: set<LrpRow>)
    requires Sound(s) && forall k, o :: Pair(s, k, o) ==> (k in gone <==> o in rows)
    ensures var t := s.(lsps := s.lsps - rows, lrps := s.lrps - gone); Sound(t) && LegsWithout(s, t, gone)
  {
    hide Sound, Pair, Leg;
    RemovedSound(s, rows, gone);
  }

  // ---------------------------------------------------------------------------------------------
  // Gateway routers
  // ---------------------------------------------------------------------------------------------

  lemma MoreServes(s: Db, t: Db, l: LrpRow, row: LspRow, r: LrId, ls: LsId, ip: Ip)
    requires Kept(s) && Sound(t) && OneMoreLeg(s, t, l, row, r, ls, ip) && t.subnets == s.subnets
    requires s.routers.Keys <= t.routers.Keys
    ensures Kept(t)
  {
    hide Sound, Leg;
    ServeFrom(s, t);
  }

  lemma SameServes(s: Db, t: Db)
    requires Kept(s) && Sound(t) && SameLegs(s, t) && t.subnets == s.subnets && s.routers.Keys <= t.routers.Keys
    ensures Kept(t)
  {
    hide Sound, Leg;
    ServeFrom(s, t);
  }

  lemma NamedServes(s: Db, t: Db, l: LrpRow, row: LspRow, r: LrId, d: SubnetId)
    requires Kept(s) && Sound(t) && d in s.subnets && s.subnets[d].gateway.Some? && r in s.routers
    requires t.routers == s.routers
    requires OneMoreLeg(s, t, l, row, r, s.subnets[d].ls, s.subnets[d].gateway.value)
    requires t.subnets == s.subnets[d := s.subnets[d].(gatewayRouter := Some(r))]
    ensures Kept(t)
  {
    hide Sound, Leg;
    forall e | e in t.subnets
      ensures NamesServing(t, e)
    {
      if e == d {
        assert Leg(t, l, row, r, s.subnets[d].ls, s.subnets[d].gateway.value);
      } else {
        assert NamesServing(s, e);
      }
    }
  }

  /** A leg that goes takes its subnet's mention of the router with it, so no mention dangles. */
  lemma DetachedServes(s: Db, t: Db, gone: set<LrpRow>, r: LrId, d: SubnetId)
    requires Kept(s) && Unique(s) && Sound(t) && LegsWithout(s, t, gone) && d in s.subnets
    requires t.routers.Keys == s.routers.Keys
    requires forall k, o, q, n, a :: k in gone && Leg(s, k, o, q, n, a) ==> q == r && n == s.subnets[d].ls
    requires t.subnets == s.subnets || t.subnets == s.subnets[d := s.subnets[d].(gatewayRouter := None)]
    requires t.subnets[d].gatewayRouter == Some(r) && s.subnets[d].gateway.Some? ==>
               forall k, o :: k in gone ==> !Leg(s, k, o, r, s.subnets[d].ls, s.subnets[d].gateway.value)
    ensures Kept(t)
  {
    hide Sound, Leg;
    forall e | e in t.subnets && t.subnets[e].gatewayRouter.Some?
      ensures NamesServing(t, e)
    {
      assert NamesServing(s, e) && s.subnets[e] == t.subnets[e];
      var q, n, a := s.subnets[e].gatewayRouter.value, s.subnets[e].ls, s.subnets[e].gateway.value;
      var k, o :| Leg(s, k, o, q, n, a);
      assert Leg(t, k, o, q, n, a);
    }
  }

  lemma DetachedByPortServes(s: Db, r: LrId, ref: PortRef, order: seq<LrpRow>)
    requires Kept(s) && Refers(s) && Lists(s, r, order)
    ensures Kept(DetachedByPort(s, r, ref, order).0)
    ensures DetachedByPort(s, r, ref, order).0.routers.Keys == s.routers.Keys
  {
    hide Sound, DetachedByPort, Lists, GatewaysServe, LegsWithout, LspAt, SubnetOn, Refers;
    var t := DetachedByPort(s, r, ref, order).0;
    if t != s {
      var l, row, d := DetachedByPortKeeps(s, r, ref, order);
      SubnetIsThere(s, s.lsps[row].ls);
      OneLegServes(s, t, r, l, row, d);
    }
  }

  lemma OneLegServes(s: Db, t: Db, r: LrId, l: LrpRow, row: LspRow, d: SubnetId)
    requires Kept(s) && Sound(t) && Pair(s, l, row) && s.lrps[l].lr == r && LegsWithout(s, t, {l})
    requires t.routers.Keys == s.routers.Keys
    requires d in s.subnets && s.subnets[d].ls == s.lsps[row].ls
    requires t.subnets == if s.subnets[d].gateway == Some(s.lrps[l].ip)
                          then s.subnets[d := s.subnets[d].(gatewayRouter := None)] else s.subnets
    ensures Kept(t)
  {
    SoundUnique(s);
    hide Sound, GatewaysServe, LegsWithout, Unique;
    forall k, o, q, n, a | k in {l} && Leg(s, k, o, q, n, a)
      ensures o == row
    {
      PairIsUnique(s, l, row, k, o);
    }
    DetachedServes(s, t, {l}, r, d);
  }

  lemma DetachedBySubnetServes(s: Db, r: LrId, d: SubnetId)
    requires Kept(s) && Refers(s)
    ensures Kept(DetachedBySubnet(s, r, d).0) && DetachedBySubnet(s, r, d).0.routers.Keys == s.routers.Keys
  {
    SoundUnique(s);
    if r in s.routers && d in s.subnets {
      var gone := DetachedBySubnetKeeps(s, r, d);
      hide Sound, DetachedBySubnet, GatewaysServe, LegsWithout;
      DetachedServes(s, DetachedBySubnet(s, r, d).0, gone, r, d);
    }
  }

  lemma RouterGoneServes(s: Db, r: LrId)
    requires Kept(s) && HasNoPorts(s, r)
    ensures Kept(s.(routers := s.routers - {r}))
  {
    SoundUnique(s);
    hide HasLsp, HasLrp;
    var t := s.(routers := s.routers - {r});
    OtherTablesSound(s, t);
    hide Sound;
    forall d | d in t.subnets && t.subnets[d].gatewayRouter.Some?
      ensures NamesServing(t, d)
    {
      assert NamesServing(s, d);
      var l, row :| Leg(s, l, row, s.subnets[d].gatewayRouter.value, s.subnets[d].ls, s.subnets[d].gateway.value);
      assert Leg(t, l, row, s.subnets[d].gatewayRouter.value, s.subnets[d].ls, s.subnets[d].gateway.value);
    }
  }

  lemma RouterDeletedServes(s: Db, r: LrId, order: seq<LrpRow>)
    requires Kept(s) && Refers(s) && Lists(s, r, order)
    ensures Kept(RouterDeleted(s, r, order).0)
  {
    hide Sound, GatewaysServe, DetachedByPort, Lists;
    if r in s.routers {
      if s.routers[r].gatewayPort.Some? {
        DetachedByPortServes(s, r, ByName(s.routers[r].gatewayPort.value), order);
        var freed := DetachedByPort(s, r, ByName(s.routers[r].gatewayPort.value), order).0;
        if HasNoPorts(freed, r) {
          RouterGoneServes(freed, r);
        }
      } else if HasNoPorts(s, r) {
        RouterGoneServes(s, r);
      }
    }
  }

  // ---------------------------------------------------------------------------------------------
  // Runs
  // ---------------------------------------------------------------------------------------------

  lemma RouterCallsKeep(s: Db, op: Op)
    requires Kept(s) && Refers(s) && Legal(s, op)
    requires (op.AddRouter? || op.UpdateRouter? || op.AttachSubnet? || op.AttachPort?)
    ensures Kept(Step(s, op).0)
  {
    hide Sound, GatewaysServe, SameLegs, OneMoreLeg, NewLsp, Lists, LspAt, Refers;
    hide RouterAdded, RouterUpdated, AttachedBySubnet, AttachedByPort;
    var t := Step(s, op).0;
    match op
    case AddRouter(r, gw, port, l, routes, leases) =>
      RouterAddedKeeps(s, r, gw, port, l, routes, leases);
      GatewayServes(s, t, gw, r, port, l);
    case UpdateRouter(r, gw, port, l, change, leases) =>
      RouterUpdatedKeeps(s, r, gw, port, l, change, leases);
      GatewayServes(s, t, gw, r, port, l);
    case AttachSubnet(r, d, port, l, order) =>
      AttachedBySubnetKeeps(s, r, d, port, l, order);
      if t != s {
        NamedServes(s, t, l, port.row, r, d);
      }
    case AttachPort(r, ref, l, order, leases) =>
      AttachedByPortKeeps(s, r, ref, l, order, leases);
      if t != s {
        var row := LspAt(s, ref).value;
        MoreServes(s, t, l, row, r, s.lsps[row].ls, PortIp(s.lsps[row], row, leases).value);
      }
  }

  lemma GatewayServes(s: Db, t: Db, gw: Option<Gateway>, r: LrId, port: NewPort, l: LrpRow)
    requires Kept(s) && Sound(t) && GatewayLeg(s, t, gw, r, port, l) && t.subnets == s.subnets
    requires s.routers.Keys <= t.routers.Keys
    ensures Kept(t)
  {
    hide Sound, GatewaysServe, SameLegs, OneMoreLeg;
    if SameLegs(s, t) {
      SameServes(s, t);
    } else {
      MoreServes(s, t, l, port.row, r, gw.value.ls, gw.value.ip);
    }
  }

  /** Every call keeps router ports and switch ports paired, one subnet on a network, and every subnet
      that names a gateway router served by it. */
  lemma StepKept(s: Db, op: Op)
    requires Kept(s) && Refers(s) && Legal(s, op)
    ensures Kept(Step(s, op).0) && Refers(Step(s, op).0)
  {
    hide Kept, Refers, NewLsp, Lists, LspAt;
    hide RouterDeleted, DetachedByPort, DetachedBySubnet, RouterAdded, RouterUpdated, AttachedBySubnet, AttachedByPort;
    hide NetworkAdded, NetworkDeleted, SubnetAdded, SubnetDeleted, PortAdded, PortUpdated, PortDeleted;
    if !IsRouterCall(op) {
      PlainCallsKeep(s, op);
    } else {
      match op
      case AddRouter(_, _, _, _, _, _) => RouterCallsKeep(s, op);
      case UpdateRouter(_, _, _, _, _, _) => RouterCallsKeep(s, op);
      case AttachSubnet(_, _, _, _, _) => RouterCallsKeep(s, op);
      case AttachPort(_, _, _, _, _) => RouterCallsKeep(s, op);
      case DeleteRouter(r, order) => RouterDeletedServes(s, r, order);
      case DetachPort(r, ref, order) => DetachedByPortServes(s, r, ref, order);
      case DetachSubnet(r, d) => DetachedBySubnetServes(s, r, d);
      case DetachBoth(r, d, ref, order) => DetachedByPortServes(s, r, ref, order);
    }
    KeptRefers(Step(s, op).0);
  }

  lemma KeptRefers(s: Db)
    requires Kept(s)
    ensures Sound(s) && Refers(s)
  {
  }

  ghost predicate LegalRun(s: Db, ops: seq<Op>)
    requires Kept(s) && Refers(s)
    decreases |ops|
  {
    ops == [] || (Legal(s, ops[0]) && (StepKept(s, ops[0]); LegalRun(Step(s, ops[0]).0, ops[1..])))
  }

  ghost function Run(s: Db, ops: seq<Op>): Db
    requires Kept(s) && Refers(s) && LegalRun(s, ops)
    decreases |ops|
  {
    if ops == [] then s else (StepKept(s, ops[0]); Run(Step(s, ops[0]).0, ops[1..]))
  }

  lemma {:induction false} RunKept(s: Db, ops: seq<Op>)
    requires Kept(s) && Refers(s) && LegalRun(s, ops)
    ensures Kept(Run(s, ops)) && Refers(Run(s, ops))
    decreases |ops|
  {
    hide Step, Kept, Refers, Legal;
    if ops != [] {
      StepKept(s, ops[0]);
      RunKept(Step(s, ops[0]).0, ops[1..]);
    }
  }

  const EMPTY: Db := Db(map[], map[], map[], map[], map[])

  lemma EmptyIsKept()
    ensures Kept(EMPTY) && Refers(EMPTY)
  {
  }

  ghost predicate LegalFromEmpty(ops: seq<Op>) {
    EmptyIsKept();
    LegalRun(EMPTY, ops)
  }

  /** The tables after a run of calls on an empty database */
  ghost function Reached(ops: seq<Op>): Db
    requires LegalFromEmpty(ops)
  {
    EmptyIsKept();
    Run(EMPTY, ops)
  }

  lemma ReachedKept(ops: seq<Op>)
    requires LegalFromEmpty(ops)
    ensures Kept(Reached(ops)) && Refers(Reached(ops))
  {
    hide Run, LegalRun, Kept, Refers;
    EmptyIsKept();
    RunKept(EMPTY, ops);
  }

  /** In every reachable state a router port has exactly one switch port, of type router, that names it,
      and a switch port of type router exactly one router port; router device owners mark the latter. */
  lemma ReachablePairing(ops: seq<Op>)
    requires LegalFromEmpty(ops)
    ensures var s := Reached(ops);
            && (forall l :: l in s.lrps ==> exists row :: Pair(s, l, row))
            && (forall row :: row in s.lsps && s.lsps[row].kind == RouterPort ==> exists l :: Pair(s, l, row))
            && (forall l, row, k, o :: Pair(s, l, row) && Pair(s, k, o) ==> (l == k <==> row == o))
            && (forall row :: row in s.lsps && s.lsps[row].kind == RouterPort ==>
                s.lsps[row].owner in [InterfaceOwner, GatewayOwner])
  {
    ReachedKept(ops);
    var s := Reached(ops);
    KeptRefers(s);
    SoundUnique(s);
    hide Run, Reached, LegalRun, Pair, Kept, Unique;
    assert forall l :: l in s.lrps ==> HasLsp(s, l);
    assert forall row :: row in s.lsps && s.lsps[row].kind == RouterPort ==> HasLrp(s, row);
    forall l, row, k, o | Pair(s, l, row) && Pair(s, k, o)
      ensures l == k <==> row == o
    {
      PairIsUnique(s, l, row, k, o);
    }
  }

  /** So no call to `delete_port` takes the switch port away from under a router port. */
  lemma RouterPortIsNotDeleted(ops: seq<Op>, ref: PortRef)
    requires LegalFromEmpty(ops)
    requires var s := Reached(ops); LspAt(s, ref).Some? && s.lsps[LspAt(s, ref).value].kind == RouterPort
    ensures PortDeleted(Reached(ops), ref) == (Reached(ops), false)
  {
    hide LspAt, Pair;
    FoundIsThere(Reached(ops), ref);
    ReachablePairing(ops);
  }

  /** A gateway router that is named is there, with a leg on the network that has the gateway address. */
  lemma ReachableGatewayServes(ops: seq<Op>, d: SubnetId)
    requires LegalFromEmpty(ops) && d in Reached(ops).subnets && Reached(ops).subnets[d].gatewayRouter.Some?
    ensures var s := Reached(ops);
            var r := s.subnets[d].gatewayRouter.value;
            && r in s.routers && s.subnets[d].gateway.Some?
            && exists l, row :: Leg(s, l, row, r, s.subnets[d].ls, s.subnets[d].gateway.value)
  {
    hide Leg, Sound;
    ReachedKept(ops);
    assert NamesServing(Reached(ops), d);
  }

  /** Deleting a router leaves no subnet that names it. */
  lemma DeletedRouterIsUnnamed(ops: seq<Op>, r: LrId, order: seq<LrpRow>, d: SubnetId)
    requires LegalFromEmpty(ops) && Refers(Reached(ops)) && Lists(Reached(ops), r, order)
    requires var (t, ok) := RouterDeleted(Reached(ops), r, order); ok && d in t.subnets
    ensures RouterDeleted(Reached(ops), r, order).0.subnets[d].gatewayRouter != Some(r)
  {
    hide Sound, DetachedByPort;
    ReachedKept(ops);
    RouterDeletedServes(Reached(ops), r, order);
    assert NamesServing(RouterDeleted(Reached(ops), r, order).0, d);
  }

  /** `get_dhcp(lsp_id=...)` takes the first subnet whose network has the port among its own. */
  ghost predicate ServesPort(s: Db, d: SubnetId, row: LspRow) {
    d in s.subnets && row in s.lsps && s.subnets[d].ls in s.switches && s.lsps[row].ls == s.subnets[d].ls
  }

  /** However it is looked for, a port has the one subnet of its network, and the network of that subnet
      is the port's. */
  lemma LookupsAgree(ops: seq<Op>, row: LspRow, d: SubnetId)
    requires LegalFromEmpty(ops) && row in Reached(ops).lsps
    ensures var s := Reached(ops);
            && (ServesPort(s, d, row) <==> SubnetOn(s, s.lsps[row].ls) == Some(d))
            && (SubnetOn(s, s.lsps[row].ls) == Some(d) ==>
                s.subnets[d].ls == s.lsps[row].ls && s.lsps[row].ls in s.switches)
  {
    ReachedKept(ops);
    var s := Reached(ops);
    KeptRefers(s);
    SoundUnique(s);
    hide Run, Reached, LegalRun, Kept, SubnetOn, Sound;
    SubnetIsThere(s, s.lsps[row].ls);
    if ServesPort(s, d, row) {
      FoundSubnet(s, d);
    }
  }
}
