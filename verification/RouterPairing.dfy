/** Runs of the network, subnet, port and router calls, and what they keep: router ports paired with
    switch ports, one subnet on a network, and no subnet naming a router that does not serve it. */
module RouterPairing {
  import opened Text
  import opened Routes
  import opened RouterTables
  import opened Routers

  // ---------------------------------------------------------------------------------------------
  // Runs
  // ---------------------------------------------------------------------------------------------

  datatype Op =
    | AddNetwork(ls: LsId, localnet: Option<NewPort>)
    | DeleteNetwork(ls: LsId)
    | AddSubnet(d: SubnetId, ls: LsId, v6: bool, gateway: Option<Ip>)
    | DeleteSubnet(d: SubnetId)
    | AddPort(port: NewPort, ls: LsId, owner: Owner, fixed: Option<Fixed>, leases: Leases)
    | UpdatePort(ref: PortRef, network: Option<LsId>, newOwner: Option<Owner>, mac: bool, fixed: Option<Fixed>,
                 leases: Leases)
    | DeletePort(ref: PortRef)
    | AddRouter(r: LrId, gw: Option<Gateway>, port: NewPort, l: LrpRow, routes: seq<Route>, leases: Leases)
    | UpdateRouter(r: LrId, gw: Option<Gateway>, port: NewPort, l: LrpRow, change: Option<RouteChange>, leases: Leases)
    | DeleteRouter(r: LrId, order: seq<LrpRow>)
    | AttachSubnet(r: LrId, d: SubnetId, port: NewPort, l: LrpRow, order: seq<LrpRow>)
    | AttachPort(r: LrId, ref: PortRef, l: LrpRow, order: seq<LrpRow>, leases: Leases)
    | DetachPort(r: LrId, ref: PortRef, order: seq<LrpRow>)
    | DetachSubnet(r: LrId, d: SubnetId)
    | DetachBoth(r: LrId, d: SubnetId, ref: PortRef, order: seq<LrpRow>)

  ghost predicate NewLsp(s: Db, port: NewPort) {
    port.row !in s.lsps && forall row :: row in s.lsps ==> s.lsps[row].name != port.name
  }

  /** What the surroundings guarantee: generated ids are new, listings list, a change of routes is the one
      `diff_routes` makes, and `update_port` is called on ports that are not a router's. */
  ghost predicate Legal(s: Db, op: Op) {
    match op
    case AddNetwork(ls, localnet) => ls !in s.switches && (localnet.Some? ==> NewLsp(s, localnet.value))
    case AddSubnet(d, _, _, _) => d !in s.subnets
    case AddPort(port, _, _, _, _) => NewLsp(s, port)
    case UpdatePort(ref, _, _, _, _, _) => LspAt(s, ref).Some? ==> s.lsps[LspAt(s, ref).value].kind != RouterPort
    case AddRouter(r, _, port, l, _, _) => r !in s.routers && NewLsp(s, port) && l !in s.lrps
    case UpdateRouter(r, _, port, l, change, _) =>
      && NewLsp(s, port) && l !in s.lrps
      && (change.Some? ==> InAdded(change.value) && (r in s.routers ==> IsDiff(change.value, s.routers[r].routes)))
    case DeleteRouter(r, order) => Lists(s, r, order)
    case AttachSubnet(r, _, port, l, order) => NewLsp(s, port) && l !in s.lrps && Lists(s, r, order)
    case AttachPort(r, _, l, order, _) => l !in s.lrps && Lists(s, r, order)
    case DetachPort(r, _, order) => Lists(s, r, order)
    case DetachBoth(r, _, _, order) => Lists(s, r, order)
    case _ => true
  }

  ghost function Step(s: Db, op: Op): (Db, bool)
    requires Legal(s, op) && Refers(s)
  {
    match op
    case AddNetwork(ls, localnet) => NetworkAdded(s, ls, localnet)
    case DeleteNetwork(ls) => NetworkDeleted(s, ls)
    case AddSubnet(d, ls, v6, gateway) => SubnetAdded(s, d, ls, v6, gateway)
    case DeleteSubnet(d) => SubnetDeleted(s, d)
    case AddPort(port, ls, owner, fixed, leases) => PortAdded(s, port, ls, owner, fixed, leases)
    case UpdatePort(ref, network, owner, mac, fixed, leases) => PortUpdated(s, ref, network, owner, mac, fixed, leases)
    case DeletePort(ref) => PortDeleted(s, ref)
    case AddRouter(r, gw, port, l, routes, leases) => RouterAdded(s, r, gw, port, l, routes, leases)
    case UpdateRouter(r, gw, port, l, change, leases) => RouterUpdated(s, r, gw, port, l, change, leases)
    case DeleteRouter(r, order) => RouterDeleted(s, r, order)
    case AttachSubnet(r, d, port, l, order) => AttachedBySubnet(s, r, d, port, l, order)
    case AttachPort(r, ref, l, order, leases) => AttachedByPort(s, r, ref, l, order, leases)
    case DetachPort(r, ref, order) => DetachedByPort(s, r, ref, order)
    case DetachSubnet(r, d) => DetachedBySubnet(s, r, d)
    case DetachBoth(r, d, ref, order) => DetachedByBoth(s, r, d, ref, order)
  }

  // ---------------------------------------------------------------------------------------------
  // Legs
  // ---------------------------------------------------------------------------------------------

  /** The router `r` has a leg on the network `ls` with the address `ip`. */
  ghost predicate Leg(s: Db, l: LrpRow, row: LspRow, r: LrId, ls: LsId, ip: Ip) {
    Pair(s, l, row) && s.lrps[l].lr == r && s.lrps[l].ip == ip && s.lsps[row].ls == ls
  }

  ghost predicate KeepsLegs(s: Db, t: Db) {
    forall l, row, r, ls, ip :: Leg(s, l, row, r, ls, ip) ==> Leg(t, l, row, r, ls, ip)
  }

  ghost predicate SameLegs(s: Db, t: Db) {
    forall l, row, r, ls, ip :: Leg(s, l, row, r, ls, ip) <==> Leg(t, l, row, r, ls, ip)
  }

  ghost predicate Serves(s: Db, r: LrId, ls: LsId, ip: Ip) {
    r in s.routers && exists l, row :: Leg(s, l, row, r, ls, ip)
  }

  ghost predicate NamesServing(s: Db, d: SubnetId)
    requires d in s.subnets
  {
    s.subnets[d].gatewayRouter.Some? ==>
      s.subnets[d].gateway.Some? &&
      Serves(s, s.subnets[d].gatewayRouter.value, s.subnets[d].ls, s.subnets[d].gateway.value)
  }

  /** A subnet that names a gateway router names one that is there and has a leg on the network of the
      subnet with the gateway address. */
  ghost predicate GatewaysServe(s: Db) {
    forall d :: d in s.subnets ==> NamesServing(s, d)
  }

  /** Subnets that name a gateway router are as they were. */
  ghost predicate NamedAlike(s: Db, t: Db) {
    forall d :: d in t.subnets && t.subnets[d].gatewayRouter.Some? ==> d in s.subnets && s.subnets[d] == t.subnets[d]
  }

  lemma ServeFrom(s: Db, t: Db)
    requires GatewaysServe(s) && KeepsLegs(s, t) && s.routers.Keys <= t.routers.Keys
    requires NamedAlike(s, t)
    ensures GatewaysServe(t)
  {
    forall d | d in t.subnets && t.subnets[d].gatewayRouter.Some?
      ensures NamesServing(t, d)
    {
      assert NamesServing(s, d);
      var l, row :| Leg(s, l, row, s.subnets[d].gatewayRouter.value, s.subnets[d].ls, s.subnets[d].gateway.value);
      assert Leg(t, l, row, s.subnets[d].gatewayRouter.value, s.subnets[d].ls, s.subnets[d].gateway.value);
    }
  }

  // ---------------------------------------------------------------------------------------------
  // Table edits
  // ---------------------------------------------------------------------------------------------

  lemma SamePairsHas(s: Db, t: Db)
    requires forall l, o :: Pair(s, l, o) <==> Pair(t, l, o)
    ensures forall l :: HasLsp(s, l) <==> HasLsp(t, l)
    ensures forall o :: HasLrp(s, o) <==> HasLrp(t, o)
  {
    hide Pair;
  }

  /** A switch port that is not a router's is made, or changed without renaming or moving it. */
  lemma PlainLspSound(s: Db, row: LspRow, p: Lsp)
    requires Sound(s) && p.ls in s.switches && p.kind != RouterPort && p.routerPort == None
    requires NewLsp(s, NewPort(row, p.name)) ||
             (row in s.lsps && s.lsps[row].kind != RouterPort && s.lsps[row].name == p.name && s.lsps[row].ls == p.ls)
    ensures Sound(WithLsp(s, row, p)) && SameLegs(s, WithLsp(s, row, p))
  {
    hide HasLsp, HasLrp, Pair;
    var t := WithLsp(s, row, p);
    PlainLspPairs(s, row, p);
    SamePairsHas(s, t);
    PlainLspTables(s, row, p);
  }

  lemma PlainLspPairs(s: Db, row: LspRow, p: Lsp)
    requires p.kind != RouterPort && (row in s.lsps ==> s.lsps[row].kind != RouterPort)
    ensures forall l, o :: Pair(s, l, o) <==> Pair(WithLsp(s, row, p), l, o)
    ensures SameLegs(s, WithLsp(s, row, p))
  {
    hide RouterPortName;
    assert forall l, o :: Pair(s, l, o) <==> Pair(WithLsp(s, row, p), l, o);
  }

  lemma PlainLspTables(s: Db, row: LspRow, p: Lsp)
    requires Unique(s) && Refers(s) && p.ls in s.switches
    requires NewLsp(s, NewPort(row, p.name)) || (row in s.lsps && s.lsps[row].name == p.name)
    ensures Unique(WithLsp(s, row, p)) && Refers(WithLsp(s, row, p))
  {
  }

  lemma PlainLspGone(s: Db, row: LspRow)
    requires Sound(s) && row in s.lsps && s.lsps[row].kind != RouterPort
    ensures var t := s.(lsps := s.lsps - {row}); Sound(t) && SameLegs(s, t)
  {
    hide RouterPortName, HasLsp, HasLrp;
    var t := s.(lsps := s.lsps - {row});
    assert forall l, o :: Pair(s, l, o) <==> Pair(t, l, o);
    SamePairsHas(s, t);
  }

  /** Everything but the router and subnet tables is the same, and no router is lost that has ports. */
  lemma OtherTablesSound(s: Db, t: Db)
    requires Sound(s) && t.lsps == s.lsps && t.lrps == s.lrps && t.switches.Keys == s.switches.Keys
    requires forall l :: l in s.lrps ==> s.lrps[l].lr in t.routers
    requires forall d :: d in t.subnets ==> t.subnets[d].ls in t.switches
    requires forall a, b :: a in t.subnets && b in t.subnets && t.subnets[a].ls == t.subnets[b].ls ==> a == b
    ensures Sound(t) && SameLegs(s, t)
  {
    hide RouterPortName, HasLsp, HasLrp;
    assert forall l, o :: Pair(s, l, o) <==> Pair(t, l, o);
    SamePairsHas(s, t);
  }

  ghost predicate Attachable(s: Db, row: LspRow, name: PortName, ls: LsId, l: LrpRow, r: LrId) {
    && ls in s.switches && r in s.routers && l !in s.lrps
    && (NewLsp(s, NewPort(row, name)) ||
        (row in s.lsps && s.lsps[row].kind != RouterPort && s.lsps[row].name == name && s.lsps[row].ls == ls))
  }

  /** The pairs after attaching are the pairs before and the new one. */
  lemma AttachedPairs(s: Db, row: LspRow, name: PortName, ls: LsId, owner: Owner, l: LrpRow, r: LrId, ip: Ip)
    requires Attachable(s, row, name, ls, l, r)
    ensures var t := Attached(s, row, name, ls, owner, l, r, ip);
            && Pair(t, l, row)
            && (forall k, o :: Pair(s, k, o) ==> k != l && o != row && t.lrps[k] == s.lrps[k] && t.lsps[o] == s.lsps[o])
            && (Unique(s) && Paired(s) ==> forall k, o :: Pair(t, k, o) <==> Pair(s, k, o) || (k == l && o == row))
  {
    hide RouterPortName, HasLsp, HasLrp;
    var t := Attached(s, row, name, ls, owner, l, r, ip);
    if Unique(s) && Paired(s) {
      NewNameIsFree(s, row, name);
      forall k, o
        ensures Pair(t, k, o) <==> Pair(s, k, o) || (k == l && o == row)
      {
        if o in s.lsps {
          NamesAreInjective(name, s.lsps[o].name);
        }
      }
    }
  }

  /** No router port is called after a switch port that is new or not a router's. */
  lemma NewNameIsFree(s: Db, row: LspRow, name: PortName)
    requires Unique(s) && Paired(s)
    requires NewLsp(s, NewPort(row, name)) ||
             (row in s.lsps && s.lsps[row].kind != RouterPort && s.lsps[row].name == name)
    ensures forall k :: k in s.lrps ==> s.lrps[k].name != RouterPortName(name)
  {
    hide RouterPortName, HasLrp;
    forall k | k in s.lrps
      ensures s.lrps[k].name != RouterPortName(name)
    {
      assert HasLsp(s, k);
      var o :| Pair(s, k, o);
      NamesAreInjective(name, s.lsps[o].name);
    }
  }

  lemma AttachedSound(s: Db, row: LspRow, name: PortName, ls: LsId, owner: Owner, l: LrpRow, r: LrId, ip: Ip)
    requires Sound(s) && Attachable(s, row, name, ls, l, r) && owner in [InterfaceOwner, GatewayOwner]
    ensures var t := Attached(s, row, name, ls, owner, l, r, ip);
            && Sound(t)
            && forall k, o, q, n, a :: Leg(t, k, o, q, n, a) <==>
                 Leg(s, k, o, q, n, a) || (k == l && o == row && q == r && n == ls && a == ip)
  {
    hide RouterPortName, HasLsp, HasLrp, Pair, Unique;
    var t := Attached(s, row, name, ls, owner, l, r, ip);
    AttachedPairs(s, row, name, ls, owner, l, r, ip);
    MorePairsHas(s, t, l, row);
    AttachedUnique(s, row, name, ls, owner, l, r, ip);
  }

  lemma AttachedUnique(s: Db, row: LspRow, name: PortName, ls: LsId, owner: Owner, l: LrpRow, r: LrId, ip: Ip)
    requires Unique(s) && Paired(s) && Attachable(s, row, name, ls, l, r)
    ensures Unique(Attached(s, row, name, ls, owner, l, r, ip))
  {
    hide RouterPortName, HasLsp, HasLrp;
    NewNameIsFree(s, row, name);
  }

  lemma MorePairsHas(s: Db, t: Db, l: LrpRow, row: LspRow)
    requires forall k, o :: Pair(t, k, o) <==> Pair(s, k, o) || (k == l && o == row)
    ensures forall k :: HasLsp(t, k) <==> HasLsp(s, k) || k == l
    ensures forall o :: HasLrp(t, o) <==> HasLrp(s, o) || o == row
  {
    hide Pair;
    assert Pair(t, l, row);
  }

  /** Switch ports and router ports that belong together go together. */
  lemma RemovedSound(s: Db, rows: set<LspRow>, legs: set<LrpRow>)
    requires Sound(s)
    requires forall k, o :: Pair(s, k, o) ==> (k in legs <==> o in rows)
    ensures var t := s.(lsps := s.lsps - rows, lrps := s.lrps - legs);
            && Sound(t)
            && forall k, o, q, n, a :: Leg(t, k, o, q, n, a) <==> Leg(s, k, o, q, n, a) && k !in legs
  {
    hide RouterPortName, HasLsp, HasLrp;
    var t := s.(lsps := s.lsps - rows, lrps := s.lrps - legs);
    assert forall k, o :: Pair(t, k, o) <==> Pair(s, k, o) && k !in legs;
    FewerPairsHas(s, t, rows, legs);
  }

  lemma FewerPairsHas(s: Db, t: Db, rows: set<LspRow>, legs: set<LrpRow>)
    requires forall k, o :: Pair(s, k, o) ==> (k in legs <==> o in rows)
    requires forall k, o :: Pair(t, k, o) <==> Pair(s, k, o) && k !in legs
    ensures forall k :: HasLsp(t, k) <==> HasLsp(s, k) && k !in legs
    ensures forall o :: HasLrp(t, o) <==> HasLrp(s, o) && o !in rows
  {
    hide Pair;
  }

  lemma DetachedSound(s: Db, row: LspRow, l: LrpRow)
    requires Sound(s) && Pair(s, l, row)
    ensures var t := Detached(s, row, l);
            && Sound(t)
            && forall k, o, q, n, a :: Leg(t, k, o, q, n, a) <==> Leg(s, k, o, q, n, a) && k != l
  {
    hide Pair, Sound;
    forall k, o | Pair(s, k, o)
      ensures k in {l} <==> o in {row}
    {
      assert Unique(s) by { SoundUnique(s); }
      PairIsUnique(s, l, row, k, o);
    }
    RemovedSound(s, {row}, {l});
  }

  lemma SoundUnique(s: Db)
    requires Sound(s)
    ensures Unique(s) && Refers(s)
  {
  }

  // ---------------------------------------------------------------------------------------------
  // Network, subnet and port calls
  // ---------------------------------------------------------------------------------------------

  ghost predicate Kept(s: Db) {
    Sound(s) && GatewaysServe(s)
  }

  predicate IsRouterCall(op: Op) {
    op.AddRouter? || op.UpdateRouter? || op.DeleteRouter? || op.AttachSubnet? || op.AttachPort? ||
    op.DetachPort? || op.DetachSubnet? || op.DetachBoth?
  }

  /** Routers, their legs and the subnets that name one are as they were. */
  ghost predicate Unrouted(s: Db, t: Db) {
    t.routers == s.routers && t.lrps == s.lrps && SameLegs(s, t) && NamedAlike(s, t)
  }

  lemma NetworkAddedKeeps(s: Db, ls: LsId, localnet: Option<NewPort>)
    requires Sound(s) && ls !in s.switches && (localnet.Some? ==> NewLsp(s, localnet.value))
    ensures var t := NetworkAdded(s, ls, localnet).0; Sound(t) && Unrouted(s, t)
  {
    hide Pair, HasLsp, HasLrp;
    var made := s.(switches := s.switches[ls := []]);
    SwitchesSound(s, made);
    if localnet.Some? {
      PlainLspSound(made, localnet.value.row,
                    Lsp(localnet.value.name, ls, LocalnetPort, None, NoOwner, UnknownAddress));
    }
  }

  lemma SwitchesSound(s: Db, t: Db)
    requires Sound(s) && t.lsps == s.lsps && t.lrps == s.lrps && t.routers == s.routers && t.subnets == s.subnets
    requires s.switches.Keys <= t.switches.Keys
    ensures Sound(t) && SameLegs(s, t)
  {
    hide RouterPortName, HasLsp, HasLrp;
    assert forall l, o :: Pair(s, l, o) <==> Pair(t, l, o);
    SamePairsHas(s, t);
  }

  lemma NetworkDeletedKeeps(s: Db, ls: LsId)
    requires Sound(s)
    ensures var t := NetworkDeleted(s, ls).0; Sound(t) && Unrouted(s, t)
  {
    hide Sound, Leg, Pair, OnlyLocalnet;
    var t := NetworkDeleted(s, ls).0;
    if ls in s.switches && OnlyLocalnet(s, ls) {
      var rows := set row | row in s.lsps && s.lsps[row].ls == ls;
      NoRouterPorts(s, ls);
      RemovedSound(s, rows, {});
      var mid := s.(lsps := s.lsps - rows, lrps := s.lrps - {});
      assert mid.lrps == s.lrps && mid.lsps == t.lsps;
      EmptiedSound(mid, t, ls);
    }
  }

  lemma NoRouterPorts(s: Db, ls: LsId)
    requires OnlyLocalnet(s, ls)
    ensures forall l, row :: Pair(s, l, row) ==> s.lsps[row].ls != ls
  {
  }

  /** A network without ports goes, with its subnets. */
  lemma EmptiedSound(s: Db, t: Db, ls: LsId)
    requires Sound(s) && t.lsps == s.lsps && t.lrps == s.lrps && t.routers == s.routers
    requires t.switches == s.switches - {ls}
    requires t.subnets == map d | d in s.subnets && s.subnets[d].ls != ls :: s.subnets[d]
    requires forall row :: row in s.lsps ==> s.lsps[row].ls != ls
    ensures Sound(t) && SameLegs(s, t)
  {
    hide RouterPortName, HasLsp, HasLrp;
    assert forall l, o :: Pair(s, l, o) <==> Pair(t, l, o);
    SamePairsHas(s, t);
  }

  lemma SubnetAddedKeeps(s: Db, d: SubnetId, ls: LsId, v6: bool, gateway: Option<Ip>)
    requires Sound(s) && d !in s.subnets
    ensures var t := SubnetAdded(s, d, ls, v6, gateway).0; Sound(t) && Unrouted(s, t)
  {
    hide Pair, HasLsp, HasLrp, Paired;
    if ls in s.switches && SubnetOn(s, ls) == None {
      forall e | e in s.subnets
        ensures s.subnets[e].ls != ls
      {
        assert !SubnetIsOn(s, e, ls);
      }
    }
    OtherTablesSound(s, SubnetAdded(s, d, ls, v6, gateway).0);
  }

  lemma SubnetDeletedKeeps(s: Db, d: SubnetId)
    requires Sound(s)
    ensures var t := SubnetDeleted(s, d).0; Sound(t) && Unrouted(s, t)
  {
    hide Pair, HasLsp, HasLrp, Paired;
    OtherTablesSound(s, SubnetDeleted(s, d).0);
  }

  lemma PortAddedKeeps(s: Db, port: NewPort, ls: LsId, owner: Owner, fixed: Option<Fixed>, leases: Leases)
    requires Sound(s) && NewLsp(s, port)
    ensures var t := PortAdded(s, port, ls, owner, fixed, leases).0; Sound(t) && Unrouted(s, t)
  {
    hide Sound, NewAddresses;
    if ls in s.switches {
      PlainLspSound(s, port.row, PortAdded(s, port, ls, owner, fixed, leases).0.lsps[port.row]);
    }
  }

  lemma SoundPlain(s: Db)
    requires Sound(s)
    ensures Refers(s)
    ensures forall row :: row in s.lsps && s.lsps[row].kind != RouterPort ==> s.lsps[row].routerPort == None
  {
    hide HasLsp, HasLrp, Unique;
  }

  lemma PortUpdatedKeeps(s: Db, ref: PortRef, ls: Option<LsId>, owner: Option<Owner>, mac: bool, fixed: Option<Fixed>,
                         leases: Leases)
    requires Sound(s) && (LspAt(s, ref).Some? ==> s.lsps[LspAt(s, ref).value].kind != RouterPort)
    ensures var t := PortUpdated(s, ref, ls, owner, mac, fixed, leases).0; Sound(t) && Unrouted(s, t)
  {
    hide UpdatedLsp, LspAt, Sound, Unrouted;
    KeptRefersTo(s);
    FoundIsThere(s, ref);
    if LspAt(s, ref).Some? {
      var row := LspAt(s, ref).value;
      UpdatedLspIs(s, s.lsps[row], owner, mac, fixed, leases);
      ChangedLspKeeps(s, row, UpdatedLsp(s, s.lsps[row], owner, mac, fixed, leases).0);
    }
    UnroutedSelf(s);
  }

  lemma KeptRefersTo(s: Db)
    requires Sound(s)
    ensures Refers(s)
  {
  }

  /** An update changes the owner and the addresses, and takes no address that is not available. */
  lemma UpdatedLspIs(s: Db, p: Lsp, owner: Option<Owner>, mac: bool, fixed: Option<Fixed>, leases: Leases)
    requires p.ls in s.switches
    ensures var q := UpdatedLsp(s, p, owner, mac, fixed, leases).0;
            && q == p.(owner := q.owner, addresses := q.addresses)
            && (q.addresses == p.addresses || (q.addresses.StaticIp? ==> Available(s, p.ls, q.addresses.ip, leases)))
  {
    hide SubnetOn, Available;
  }

  lemma UnroutedSelf(s: Db)
    ensures Unrouted(s, s)
  {
  }

  lemma ChangedLspKeeps(s: Db, row: LspRow, p: Lsp)
    requires Sound(s) && row in s.lsps && s.lsps[row].kind != RouterPort
    requires p.name == s.lsps[row].name && p.ls == s.lsps[row].ls && p.kind == s.lsps[row].kind
    requires p.routerPort == s.lsps[row].routerPort
    ensures Sound(WithLsp(s, row, p)) && Unrouted(s, WithLsp(s, row, p))
  {
    SoundPlain(s);
    hide Sound, Leg;
    PlainLspSound(s, row, p);
  }

  lemma PortDeletedKeeps(s: Db, ref: PortRef)
    requires Sound(s)
    ensures var t := PortDeleted(s, ref).0; Sound(t) && Unrouted(s, t)
  {
    hide LspAt, Pair, HasLsp, HasLrp, Unique;
    FoundIsThere(s, ref);
    if LspAt(s, ref).Some? && PortDeleted(s, ref).1 {
      PlainLspGone(s, LspAt(s, ref).value);
    }
  }

  lemma FoundIsThere(s: Db, ref: PortRef)
    ensures LspAt(s, ref).Some? ==> LspAt(s, ref).value in s.lsps
  {
  }

  /** Calls that are not about routers leave every leg as it is. */
  lemma PlainCallsKeep(s: Db, op: Op)
    requires Kept(s) && Legal(s, op) && !IsRouterCall(op)
    ensures Kept(Step(s, op).0) && SameLegs(s, Step(s, op).0) && Step(s, op).0.routers == s.routers
  {
    SoundUnique(s);
    hide Sound, GatewaysServe, Refers, SameLegs, NamedAlike, NewLsp;
    hide NetworkAdded, NetworkDeleted, SubnetAdded, SubnetDeleted, PortAdded, PortUpdated, PortDeleted;
    match op
    case AddNetwork(ls, localnet) => NetworkAddedKeeps(s, ls, localnet); UnroutedServe(s, Step(s, op).0);
    case DeleteNetwork(ls) => NetworkDeletedKeeps(s, ls); UnroutedServe(s, Step(s, op).0);
    case AddSubnet(d, ls, v6, gateway) => SubnetAddedKeeps(s, d, ls, v6, gateway); UnroutedServe(s, Step(s, op).0);
    case DeleteSubnet(d) => SubnetDeletedKeeps(s, d); UnroutedServe(s, Step(s, op).0);
    case AddPort(port, ls, owner, fixed, leases) =>
      PortAddedKeeps(s, port, ls, owner, fixed, leases);
      UnroutedServe(s, Step(s, op).0);
    case UpdatePort(ref, ls, owner, mac, fixed, leases) =>
      PortUpdatedKeeps(s, ref, ls, owner, mac, fixed, leases);
      UnroutedServe(s, Step(s, op).0);
    case DeletePort(ref) => PortDeletedKeeps(s, ref); UnroutedServe(s, Step(s, op).0);
  }

  lemma UnroutedServe(s: Db, t: Db)
    requires Kept(s) && Sound(t) && Unrouted(s, t)
    ensures Kept(t)
  {
    hide Sound, Leg;
    ServeFrom(s, t);
  }
}
