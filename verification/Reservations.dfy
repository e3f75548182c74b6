/** Reserved addresses: the `exclude_ips` of a network are the addresses external gateways have on it. */
module Reservations {
  import opened Text
  import opened Routes
  import opened RouterTables
  import opened Routers
  import opened RouterPairing
  import opened RouterRuns

  // ---------------------------------------------------------------------------------------------
  // The invariant
  // ---------------------------------------------------------------------------------------------

  /** The router port `l` is the one behind the external gateway of `r`. */
  ghost predicate IsGatewayPort(s: Db, r: LrId, l: LrpRow) {
    && r in s.routers && s.routers[r].gatewayPort.Some? && l in s.lrps
    && s.lrps[l].name == RouterPortName(s.routers[r].gatewayPort.value)
  }

  /** The external gateway of `r` holds the address `ip` on the network `ls`. */
  ghost predicate Holds(s: Db, r: LrId, l: LrpRow, row: LspRow, ls: LsId, ip: Ip) {
    IsGatewayPort(s, r, l) && Leg(s, l, row, r, ls, ip)
  }

  ghost predicate Held(s: Db, ls: LsId, ip: Ip) {
    exists r, l, row :: Holds(s, r, l, row, ls, ip)
  }

  ghost predicate HasGateway(s: Db, r: LrId) {
    exists l, row, ls, ip :: Holds(s, r, l, row, ls, ip)
  }

  ghost predicate NoDuplicates(values: seq<Ip>) {
    forall i, j :: 0 <= i < j < |values| ==> values[i] != values[j]
  }

  /** A port that is not a router's has the static address `ip`. */
  ghost predicate FixedAt(s: Db, row: LspRow, ls: LsId, ip: Ip) {
    row in s.lsps && s.lsps[row].kind != RouterPort && s.lsps[row].addresses == StaticIp(ip) && s.lsps[row].ls == ls
  }

  ghost predicate GatewaysHeld(s: Db) {
    forall r :: r in s.routers && s.routers[r].gatewayPort.Some? ==> HasGateway(s, r)
  }

  ghost predicate ExcludesHeld(s: Db) {
    forall ls :: ls in s.switches ==>
      NoDuplicates(s.switches[ls]) && forall ip :: ip in s.switches[ls] <==> Held(s, ls, ip)
  }

  ghost predicate OneHolder(s: Db) {
    forall r, l, row, q, k, o, ls, ip :: Holds(s, r, l, row, ls, ip) && Holds(s, q, k, o, ls, ip) ==> r == q
  }

  ghost predicate FixedApart(s: Db) {
    && (forall row, ls, ip :: FixedAt(s, row, ls, ip) && ls in s.switches ==> ip !in s.switches[ls])
    && (forall row, o, ls, ip :: FixedAt(s, row, ls, ip) && FixedAt(s, o, ls, ip) ==> row == o)
  }

  /** The addresses a network excludes are, without repetition, those that external gateways hold on it,
      no two gateways hold the same, and no port has one of them, or another port's, as a static address. */
  ghost predicate Conserved(s: Db) {
    GatewaysHeld(s) && ExcludesHeld(s) && OneHolder(s) && FixedApart(s)
  }

  // ---------------------------------------------------------------------------------------------
  // Calls that touch no gateway
  // ---------------------------------------------------------------------------------------------

  ghost predicate HoldsAlike(s: Db, t: Db) {
    && (forall r, l, row, ls, ip :: Holds(s, r, l, row, ls, ip) <==> Holds(t, r, l, row, ls, ip))
    && (forall r :: r in t.routers && t.routers[r].gatewayPort.Some? ==>
        r in s.routers && s.routers[r].gatewayPort == t.routers[r].gatewayPort)
  }

  ghost predicate ExcludesAlike(s: Db, t: Db) {
    forall ls :: ls in t.switches ==>
      if ls in s.switches then t.switches[ls] == s.switches[ls] else t.switches[ls] == []
  }

  lemma HeldAlike(s: Db, t: Db)
    requires HoldsAlike(s, t)
    ensures forall ls, ip :: Held(s, ls, ip) <==> Held(t, ls, ip)
    ensures forall r :: HasGateway(s, r) <==> HasGateway(t, r)
  {
    hide Holds;
  }

  lemma HoldersOnNetworks(s: Db, ls: LsId, ip: Ip)
    requires Refers(s) && Held(s, ls, ip)
    ensures ls in s.switches
  {
    hide RouterPortName;
  }

  lemma AlikeConserved(s: Db, t: Db)
    requires Refers(s) && Conserved(s) && HoldsAlike(s, t) && ExcludesAlike(s, t) && FixedApart(t)
    ensures Conserved(t)
  {
    hide Holds, HasGateway, Held, FixedAt, Refers, FixedApart, NoDuplicates;
    HeldAlike(s, t);
    assert GatewaysHeld(t);
    forall ls | ls in t.switches
      ensures NoDuplicates(t.switches[ls]) && forall ip :: ip in t.switches[ls] <==> Held(t, ls, ip)
    {
      if ls !in s.switches {
        Empties();
        forall ip
          ensures !Held(s, ls, ip)
        {
          if Held(s, ls, ip) {
            HoldersOnNetworks(s, ls, ip);
          }
        }
      }
    }
  }

  lemma Empties()
    ensures NoDuplicates([])
  {
  }

  /** Fewer static addresses stay apart. */
  lemma FewerFixed(s: Db, t: Db)
    requires FixedApart(s) && ExcludesAlike(s, t) && Refers(s)
    requires forall row, ls, ip :: FixedAt(t, row, ls, ip) ==> FixedAt(s, row, ls, ip)
    ensures FixedApart(t)
  {
    assert forall row, ls, ip :: FixedAt(s, row, ls, ip) ==> ls in s.switches;
    hide FixedAt, Refers;
  }

  /** One static address more, that was available, stays apart. */
  lemma MoreFixed(s: Db, t: Db, row: LspRow, ls: LsId, leases: Leases)
    requires FixedApart(s) && t.switches == s.switches && ls in s.switches && row in t.lsps && t.lsps[row].ls == ls
    requires t.lsps == s.lsps[row := t.lsps[row]]
    requires t.lsps[row].addresses.StaticIp? ==> Available(s, ls, t.lsps[row].addresses.ip, leases)
    ensures FixedApart(t)
  {
    assert forall o, n, ip :: FixedAt(t, o, n, ip) && o != row ==> FixedAt(s, o, n, ip);
    assert forall n, ip :: FixedAt(t, row, n, ip) ==> n == ls && Available(s, ls, ip, leases);
    assert forall o, n, ip :: FixedAt(s, o, n, ip) ==> HasIp(s, o, n, ip, leases);
    hide FixedAt, HasIp;
  }

  lemma UnroutedHolds(s: Db, t: Db)
    requires Unrouted(s, t)
    ensures HoldsAlike(s, t)
  {
    hide Leg;
  }

  lemma UnroutedConserved(s: Db, t: Db)
    requires Refers(s) && Conserved(s) && Unrouted(s, t) && ExcludesAlike(s, t) && FixedApart(t)
    ensures Conserved(t)
  {
    hide Conserved, HoldsAlike, Unrouted, ExcludesAlike, FixedApart;
    UnroutedHolds(s, t);
    AlikeConserved(s, t);
  }

  lemma NewAddressesAvailable(s: Db, ls: LsId, fixed: Option<Fixed>, leases: Leases)
    requires ls in s.switches
    ensures var a := NewAddresses(s, ls, fixed, leases);
            a.Some? && a.value.StaticIp? ==> Available(s, ls, a.value.ip, leases)
  {
    hide SubnetOn, Available;
  }

  lemma NetworksFixed(s: Db, op: Op)
    requires Refers(s) && Legal(s, op) && FixedApart(s)
    requires (op.AddNetwork? || op.DeleteNetwork? || op.AddSubnet? || op.DeleteSubnet?)
    ensures ExcludesAlike(s, Step(s, op).0) && FixedApart(Step(s, op).0)
  {
    hide OnlyLocalnet, SubnetOn, FixedApart;
    FewerFixed(s, Step(s, op).0);
  }

  lemma AddPortFixed(s: Db, port: NewPort, ls: LsId, owner: Owner, fixed: Option<Fixed>, leases: Leases)
    requires Refers(s) && FixedApart(s)
    ensures var t := PortAdded(s, port, ls, owner, fixed, leases).0; ExcludesAlike(s, t) && FixedApart(t)
  {
    hide FixedApart, Available, NewAddresses;
    if ls in s.switches {
      NewAddressesAvailable(s, ls, fixed, leases);
      MoreFixed(s, PortAdded(s, port, ls, owner, fixed, leases).0, port.row, ls, leases);
    }
  }

  /** Writing the row of a port with the same addresses, or with new ones that are available. */
  lemma ChangedFixed(s: Db, row: LspRow, p: Lsp, leases: Leases)
    requires Refers(s) && FixedApart(s) && row in s.lsps && p.kind == s.lsps[row].kind && p.ls == s.lsps[row].ls
    requires p.addresses == s.lsps[row].addresses ||
             (p.addresses.StaticIp? ==> Available(s, p.ls, p.addresses.ip, leases))
    ensures ExcludesAlike(s, WithLsp(s, row, p)) && FixedApart(WithLsp(s, row, p))
  {
    hide FixedApart, Available;
    if p.addresses == s.lsps[row].addresses {
      FewerFixed(s, WithLsp(s, row, p));
    } else {
      MoreFixed(s, WithLsp(s, row, p), row, p.ls, leases);
    }
  }

  lemma UpdatePortFixed(s: Db, ref: PortRef, ls: Option<LsId>, owner: Option<Owner>, mac: bool, fixed: Option<Fixed>,
                        leases: Leases)
    requires Refers(s) && FixedApart(s)
    ensures var t := PortUpdated(s, ref, ls, owner, mac, fixed, leases).0; ExcludesAlike(s, t) && FixedApart(t)
  {
    FoundIsThere(s, ref);
    hide FixedApart, Available, LspAt, UpdatedLsp;
    if LspAt(s, ref).Some? && (ls.Some? ==> ls.value == s.lsps[LspAt(s, ref).value].ls) {
      var row := LspAt(s, ref).value;
      UpdatedLspIs(s, s.lsps[row], owner, mac, fixed, leases);
      ChangedFixed(s, row, UpdatedLsp(s, s.lsps[row], owner, mac, fixed, leases).0, leases);
    }
  }

  lemma DeletePortFixed(s: Db, ref: PortRef)
    requires Refers(s) && FixedApart(s)
    ensures var t := PortDeleted(s, ref).0; ExcludesAlike(s, t) && FixedApart(t)
  {
    hide FixedApart, LspAt;
    FewerFixed(s, PortDeleted(s, ref).0);
  }

  lemma PlainCallsConserve(s: Db, op: Op)
    requires Sound(s) && Refers(s) && Conserved(s) && Legal(s, op) && !IsRouterCall(op)
    ensures Conserved(Step(s, op).0)
  {
    var t := Step(s, op).0;
    hide Sound, Refers, Unrouted, ExcludesAlike, FixedApart, GatewaysHeld, ExcludesHeld, OneHolder, NewLsp, LspAt;
    hide NetworkAdded, NetworkDeleted, SubnetAdded, SubnetDeleted, PortAdded, PortUpdated, PortDeleted;
    match op
    case AddNetwork(ls, localnet) =>
      NetworkAddedKeeps(s, ls, localnet);
      NetworksFixed(s, op);
      UnroutedConserved(s, t);
    case DeleteNetwork(ls) =>
      NetworkDeletedKeeps(s, ls);
      NetworksFixed(s, op);
      UnroutedConserved(s, t);
    case AddSubnet(d, ls, v6, gateway) =>
      SubnetAddedKeeps(s, d, ls, v6, gateway);
      NetworksFixed(s, op);
      UnroutedConserved(s, t);
    case DeleteSubnet(d) =>
      SubnetDeletedKeeps(s, d);
      NetworksFixed(s, op);
      UnroutedConserved(s, t);
    case AddPort(port, ls, owner, fixed, leases) =>
      PortAddedKeeps(s, port, ls, owner, fixed, leases);
      AddPortFixed(s, port, ls, owner, fixed, leases);
      UnroutedConserved(s, t);
    case UpdatePort(ref, ls, owner, mac, fixed, leases) =>
      PortUpdatedKeeps(s, ref, ls, owner, mac, fixed, leases);
      UpdatePortFixed(s, ref, ls, owner, mac, fixed, leases);
      UnroutedConserved(s, t);
    case DeletePort(ref) =>
      PortDeletedKeeps(s, ref);
      DeletePortFixed(s, ref);
      UnroutedConserved(s, t);
  }

  // ---------------------------------------------------------------------------------------------
  // Interfaces
  // ---------------------------------------------------------------------------------------------

  /** The name of a gateway port is that of a router's port. */
  lemma GatewayNameIsRouterPort(s: Db, r: LrId, row: LspRow)
    requires Sound(s) && GatewaysHeld(s) && r in s.routers && row in s.lsps
    requires s.routers[r].gatewayPort == Some(s.lsps[row].name)
    ensures exists l, ls, ip :: Holds(s, r, l, row, ls, ip)
  {
    SoundUnique(s);
    hide Sound, RouterPortName;
    assert HasGateway(s, r);
    var l, o, ls, ip :| Holds(s, r, l, o, ls, ip);
    NamesAreInjective(s.lsps[o].name, s.lsps[row].name);
    assert o == row;
  }

  /** Attaching an interface: the router port that comes is nobody's gateway. */
  lemma InterfaceHolds(s: Db, row: LspRow, name: PortName, ls: LsId, l: LrpRow, r: LrId, ip: Ip)
    requires Sound(s) && GatewaysHeld(s) && Attachable(s, row, name, ls, l, r)
    ensures HoldsAlike(s, Attached(s, row, name, ls, InterfaceOwner, l, r, ip))
  {
    forall q | q in s.routers && s.routers[q].gatewayPort.Some?
      ensures RouterPortName(s.routers[q].gatewayPort.value) != RouterPortName(name)
    {
      GatewayNameIsOther(s, q, row, name);
      NamesAreInjective(s.routers[q].gatewayPort.value, name);
    }
    hide Sound, Leg, RouterPortName, GatewaysHeld, HoldsAlike;
    AttachedMore(s, row, name, ls, InterfaceOwner, l, r, ip);
    OtherNameHolds(s, Attached(s, row, name, ls, InterfaceOwner, l, r, ip), RouterPortName(name), l, row, r, ls, ip);
  }

  lemma OtherNameHolds(s: Db, t: Db, name: string, l: LrpRow, row: LspRow, r: LrId, ls: LsId, ip: Ip)
    requires OneMoreLeg(s, t, l, row, r, ls, ip) && l !in s.lrps && t.lrps == s.lrps[l := Lrp(name, r, ip)]
    requires t.routers == s.routers
    requires forall q :: q in s.routers && s.routers[q].gatewayPort.Some? ==>
               RouterPortName(s.routers[q].gatewayPort.value) != name
    ensures HoldsAlike(s, t)
  {
    hide Leg, RouterPortName;
    forall q, k, o, n, a
      ensures Holds(s, q, k, o, n, a) <==> Holds(t, q, k, o, n, a)
    {
      LegIsThere(s, k, o, q, n, a);
    }
  }

  lemma LegIsThere(s: Db, l: LrpRow, row: LspRow, r: LrId, ls: LsId, ip: Ip)
    ensures Leg(s, l, row, r, ls, ip) ==> l in s.lrps && row in s.lsps
  {
  }

  lemma GatewayNameIsOther(s: Db, q: LrId, row: LspRow, name: PortName)
    requires Sound(s) && GatewaysHeld(s) && q in s.routers && s.routers[q].gatewayPort.Some?
    requires NewLsp(s, NewPort(row, name)) ||
             (row in s.lsps && s.lsps[row].kind != RouterPort && s.lsps[row].name == name)
    ensures s.routers[q].gatewayPort.value != name
  {
    SoundUnique(s);
    hide Sound, RouterPortName;
    assert HasGateway(s, q);
    var l, o, ls, ip :| Holds(s, q, l, o, ls, ip);
    NamesAreInjective(s.lsps[o].name, s.routers[q].gatewayPort.value);
  }

  lemma InterfaceConserves(s: Db, row: LspRow, name: PortName, ls: LsId, l: LrpRow, r: LrId, ip: Ip, t: Db)
    requires Sound(s) && Refers(s) && Conserved(s) && Attachable(s, row, name, ls, l, r)
    requires var a := Attached(s, row, name, ls, InterfaceOwner, l, r, ip);
             t.lsps == a.lsps && t.lrps == a.lrps && t.routers == a.routers && t.switches == a.switches
    ensures Conserved(t)
  {
    var a := Attached(s, row, name, ls, InterfaceOwner, l, r, ip);
    InterfaceHolds(s, row, name, ls, l, r, ip);
    hide Sound, Attachable, RouterPortName, GatewaysHeld, ExcludesHeld, OneHolder, FixedApart, Holds;
    SameTablesHold(a, t);
    FewerFixed(s, t);
    AlikeConserved(s, t);
  }

  lemma SameTablesHold(s: Db, t: Db)
    requires t.lsps == s.lsps && t.lrps == s.lrps && t.routers == s.routers
    ensures forall q, k, o, n, b :: Holds(s, q, k, o, n, b) <==> Holds(t, q, k, o, n, b)
  {
    hide RouterPortName;
  }

  // ---------------------------------------------------------------------------------------------
  // Gateways added
  // ---------------------------------------------------------------------------------------------

  /** Writing a router row that keeps its gateway, or a new one without. */
  lemma RouterRowConserves(s: Db, r: LrId, router: Lr)
    requires Refers(s) && Conserved(s)
    requires if r in s.routers then router.gatewayPort == s.routers[r].gatewayPort else router.gatewayPort == None
    ensures Conserved(WithRouter(s, r, router))
  {
    var t := WithRouter(s, r, router);
    hide GatewaysHeld, ExcludesHeld, OneHolder, FixedApart;
    RowHolds(s, t, r);
    FewerFixed(s, t);
    hide HoldsAlike, Refers;
    AlikeConserved(s, t);
  }

  lemma RowHolds(s: Db, t: Db, r: LrId)
    requires t.lsps == s.lsps && t.lrps == s.lrps && r in t.routers && t.routers == s.routers[r := t.routers[r]]
    requires if r in s.routers then t.routers[r].gatewayPort == s.routers[r].gatewayPort
             else t.routers[r].gatewayPort == None
    ensures HoldsAlike(s, t)
  {
    hide RouterPortName;
  }

  /** Exactly one gateway more holds an address. */
  ghost predicate OneMoreHolds(s: Db, t: Db, r: LrId, l: LrpRow, row: LspRow, ls: LsId, ip: Ip) {
    forall q, k, o, n, a :: Holds(t, q, k, o, n, a) <==>
      Holds(s, q, k, o, n, a) || (q == r && k == l && o == row && n == ls && a == ip)
  }

  lemma GatewayHolds(s: Db, t: Db, name: PortName, l: LrpRow, row: LspRow, r: LrId, ls: LsId, ip: Ip)
    requires OneMoreLeg(s, t, l, row, r, ls, ip) && l !in s.lrps
    requires t.lrps == s.lrps[l := Lrp(RouterPortName(name), r, ip)]
    requires r in s.routers && r in t.routers && s.routers[r].gatewayPort == None
    requires t.routers[r].gatewayPort == Some(name)
    requires t.routers == s.routers[r := t.routers[r]]
    requires forall k :: k in s.lrps ==> s.lrps[k].name != RouterPortName(name)
    requires forall q :: q in s.routers && s.routers[q].gatewayPort.Some? ==>
               RouterPortName(s.routers[q].gatewayPort.value) != RouterPortName(name)
    ensures OneMoreHolds(s, t, r, l, row, ls, ip)
  {
    hide Leg, RouterPortName;
    forall q, k, o, n, a
      ensures Holds(t, q, k, o, n, a) <==>
              Holds(s, q, k, o, n, a) || (q == r && k == l && o == row && n == ls && a == ip)
    {
      LegIsThere(s, k, o, q, n, a);
      LegIsThere(t, k, o, q, n, a);
    }
  }

  lemma OneMoreHeld(s: Db, t: Db, r: LrId, l: LrpRow, row: LspRow, ls: LsId, ip: Ip)
    requires OneMoreHolds(s, t, r, l, row, ls, ip)
    ensures forall n, a :: Held(t, n, a) <==> Held(s, n, a) || (n == ls && a == ip)
    ensures forall q :: HasGateway(t, q) <==> HasGateway(s, q) || q == r
  {
    hide Holds;
    assert Holds(t, r, l, row, ls, ip);
  }

  /** A reservation for an address nobody holds. */
  lemma MoreHeldConserves(s: Db, t: Db, r: LrId, l: LrpRow, row: LspRow, ls: LsId, ip: Ip)
    requires Conserved(s) && OneMoreHolds(s, t, r, l, row, ls, ip) && FixedApart(t)
    requires ls in s.switches && ip !in s.switches[ls] && t.switches == s.switches[ls := s.switches[ls] + [ip]]
    requires r in t.routers && t.routers == s.routers[r := t.routers[r]]
    ensures Conserved(t)
  {
    OneMoreHeld(s, t, r, l, row, ls, ip);
    hide Holds, HasGateway, FixedApart;
    assert GatewaysHeld(t);
    assert ExcludesHeld(t) by {
      hide Held;
    }
    assert !Held(s, ls, ip);
    forall q, k, o, p, j, m, n, a | Holds(t, q, k, o, n, a) && Holds(t, p, j, m, n, a)
      ensures q == p
    {
      assert Holds(s, q, k, o, n, a) ==> Held(s, n, a);
      assert Holds(s, p, j, m, n, a) ==> Held(s, n, a);
    }
  }

  /** Static addresses stay apart from one more reservation that was available. */
  lemma ReservedFixed(s: Db, t: Db, row: LspRow, ls: LsId, ip: Ip, leases: Leases)
    requires FixedApart(s) && ls in s.switches && Available(s, ls, ip, leases)
    requires row in t.lsps && t.lsps[row].kind == RouterPort && t.lsps == s.lsps[row := t.lsps[row]]
    requires t.switches == s.switches[ls := s.switches[ls] + [ip]]
    ensures FixedApart(t)
  {
    assert forall o, n, a :: FixedAt(t, o, n, a) ==> FixedAt(s, o, n, a);
    assert forall o, a :: FixedAt(s, o, ls, a) ==> HasIp(s, o, ls, a, leases);
    hide FixedAt, HasIp;
  }

  lemma GatewayAddedConserves(s: Db, r: LrId, gw: Gateway, port: NewPort, l: LrpRow, leases: Leases)
    requires Sound(s) && Refers(s) && Conserved(s) && NewLsp(s, port) && l !in s.lrps && GatewayFits(s, gw, leases)
    requires r in s.routers && s.routers[r].gatewayPort == None && gw.ls in s.switches
    ensures Conserved(GatewayAdded(s, r, gw, port, l).0)
  {
    var t := GatewayAdded(s, r, gw, port, l).0;
    SubnetIsThere(s, gw.ls);
    NewNameIsFree(s, port.row, port.name);
    forall q | q in s.routers && s.routers[q].gatewayPort.Some?
      ensures RouterPortName(s.routers[q].gatewayPort.value) != RouterPortName(port.name)
    {
      GatewayNameIsOther(s, q, port.row, port.name);
      NamesAreInjective(s.routers[q].gatewayPort.value, port.name);
    }
    GatewayAddedKeeps(s, r, gw, port, l);
    hide Sound, RouterPortName, NewLsp, SubnetOn, RoutesAdded, OneMoreLeg, OneMoreHolds, FixedApart, Refers;
    hide GatewaysHeld, ExcludesHeld, OneHolder;
    GatewayHolds(s, t, port.name, l, port.row, r, gw.ls, gw.ip);
    ReservedFixed(s, t, port.row, gw.ls, gw.ip, leases);
    MoreHeldConserves(s, t, r, l, port.row, gw.ls, gw.ip);
  }

  lemma GatewayOnRowConserves(s: Db, r: LrId, router: Lr, gw: Gateway, port: NewPort, l: LrpRow, leases: Leases)
    requires Sound(s) && Refers(s) && Conserved(s) && NewLsp(s, port) && l !in s.lrps && GatewayFits(s, gw, leases)
    requires router.gatewayPort == None && (r in s.routers ==> s.routers[r].gatewayPort == None)
    ensures var made := WithRouter(s, r, router);
            && r in made.routers && gw.ls in made.switches && gw.subnet in made.subnets
            && made.subnets[gw.subnet].gateway.Some?
            && Conserved(GatewayAdded(made, r, gw, port, l).0)
  {
    var made := WithRouter(s, r, router);
    RouterRowSound(s, r, router);
    SoundUnique(made);
    SameRowsFit(s, made, gw, leases);
    SameLspsNew(s, made, port);
    hide Sound, Conserved, NewLsp, GatewayAdded, GatewayFits, SameLegs;
    RouterRowConserves(s, r, router);
    GatewayAddedConserves(made, r, gw, port, l, leases);
  }

  lemma SameRowsFit(s: Db, t: Db, gw: Gateway, leases: Leases)
    requires Unique(s) && Refers(s) && Refers(t) && GatewayFits(s, gw, leases)
    requires t.lsps == s.lsps && t.switches == s.switches && t.subnets == s.subnets
    ensures GatewayFits(t, gw, leases) && gw.ls in t.switches && gw.subnet in t.subnets
    ensures t.subnets[gw.subnet].gateway.Some?
  {
    SubnetIsThere(s, gw.ls);
    FoundSubnet(s, gw.subnet);
    assert SubnetIsOn(t, gw.subnet, gw.ls);
    assert Unique(t) ==> SubnetOn(t, gw.ls) == Some(gw.subnet);
    assert forall d :: SubnetIsOn(t, d, gw.ls) ==> d == gw.subnet;
    assert forall o, a :: HasIp(s, o, gw.ls, a, leases) <==> HasIp(t, o, gw.ls, a, leases);
  }

  lemma RouterAddedConserves(s: Db, r: LrId, gw: Option<Gateway>, port: NewPort, l: LrpRow, routes: seq<Route>,
                             leases: Leases)
    requires Sound(s) && Refers(s) && Conserved(s) && r !in s.routers && NewLsp(s, port) && l !in s.lrps
    ensures Conserved(RouterAdded(s, r, gw, port, l, routes, leases).0)
  {
    hide Sound, Conserved, NewLsp, RoutesAdded, GatewayAdded, HasDefault, GatewayFits, WithRouter, Refers, SameLegs;
    if gw == None || (GatewayFits(s, gw.value, leases) && !HasDefault(routes)) {
      var made := WithRouter(s, r, Lr(None, map[]));
      RouterRowSound(s, r, Lr(None, map[]));
      KeptRefersTo(made);
      RouterRowConserves(s, r, Lr(None, map[]));
      var placed := made;
      if gw.Some? {
        GatewayOnRow(s, r, Lr(None, map[]), gw.value, port, l, leases);
        GatewayOnRowConserves(s, r, Lr(None, map[]), gw.value, port, l, leases);
        placed := GatewayAdded(made, r, gw.value, port, l).0;
        KeptRefersTo(placed);
      }
      RouterRowConserves(placed, r, placed.routers[r].(routes := RoutesAdded(placed.routers[r].routes, routes).0));
    }
  }

  lemma RouterUpdatedConserves(s: Db, r: LrId, gw: Option<Gateway>, port: NewPort, l: LrpRow,
                               change: Option<RouteChange>, leases: Leases)
    requires Sound(s) && Refers(s) && Conserved(s) && NewLsp(s, port) && l !in s.lrps
    requires (change.Some? ==> InAdded(change.value))
    ensures Conserved(RouterUpdated(s, r, gw, port, l, change, leases).0)
  {
    hide Sound, Conserved, NewLsp, RoutesChanged, GatewayAdded, HasDefault, GatewayFits, WithRouter, Refers;
    if r in s.routers && (gw.Some? ==> GatewayFits(s, gw.value, leases)) {
      var router := s.routers[r].(routes := RoutesChanged(s.routers[r].routes, change).0);
      RouterRowConserves(s, r, router);
      if gw.Some? && s.routers[r].gatewayPort == None {
        GatewayOnRowConserves(s, r, router, gw.value, port, l, leases);
      }
    }
  }

  // ---------------------------------------------------------------------------------------------
  // Interfaces and gateways removed
  // ---------------------------------------------------------------------------------------------

  /** The gateway port of a router is a port of that router. */
  lemma GatewayPortIsOwn(s: Db, q: LrId, l: LrpRow)
    requires Unique(s) && GatewaysHeld(s) && IsGatewayPort(s, q, l)
    ensures s.lrps[l].lr == q && exists o, ls, ip :: Holds(s, q, l, o, ls, ip)
  {
    hide RouterPortName;
    assert HasGateway(s, q);
    var k, o, ls, ip :| Holds(s, q, k, o, ls, ip);
    assert k == l;
  }

  /** Taking away ports that are nobody's gateway. */
  lemma OtherLegsHold(s: Db, t: Db, gone: set<LrpRow>)
    requires LegsWithout(s, t, gone) && t.lrps == s.lrps - gone && t.routers == s.routers
    requires forall q, l :: l in gone ==> !IsGatewayPort(s, q, l)
    ensures HoldsAlike(s, t)
  {
    hide Leg, RouterPortName;
  }

  lemma OtherLegsConserve(s: Db, t: Db, gone: set<LrpRow>)
    requires Refers(s) && Conserved(s) && LegsWithout(s, t, gone) && t.lrps == s.lrps - gone && t.routers == s.routers
    requires t.switches == s.switches
    requires forall q, l :: l in gone ==> !IsGatewayPort(s, q, l)
    requires forall row :: row in t.lsps ==> row in s.lsps && t.lsps[row] == s.lsps[row]
    ensures Conserved(t)
  {
    hide LegsWithout, GatewaysHeld, ExcludesHeld, OneHolder, FixedApart, IsGatewayPort;
    OtherLegsHold(s, t, gone);
    FewerFixed(s, t);
    hide HoldsAlike, Refers;
    AlikeConserved(s, t);
  }

  /** A gateway port that goes while its router still names it. */
  lemma LostGateway(s: Db, t: Db, q: LrId, l: LrpRow, gone: set<LrpRow>)
    requires Unique(s) && IsGatewayPort(s, q, l) && l in gone && t.lrps == s.lrps - gone
    requires q in t.routers && t.routers[q].gatewayPort == s.routers[q].gatewayPort
    ensures !Conserved(t)
  {
    hide RouterPortName, Leg;
    assert forall k :: !IsGatewayPort(t, q, k);
    assert !HasGateway(t, q);
  }

  lemma FirstApart(x: Ip, rest: seq<Ip>)
    ensures NoDuplicates([x] + rest) <==> x !in rest && NoDuplicates(rest)
  {
    var values := [x] + rest;
    assert forall i :: 0 <= i < |rest| ==> values[i + 1] == rest[i];
    if NoDuplicates(values) {
      assert forall i :: 0 <= i < |rest| ==> rest[i] == values[i + 1] != values[0];
    }
  }

  lemma {:induction false} RemovedOne(values: seq<Ip>, ip: Ip)
    requires NoDuplicates(values) && ip in values
    ensures NoDuplicates(RemoveOne(values, ip)) && forall a :: a in RemoveOne(values, ip) <==> a in values && a != ip
    decreases |values|
  {
    hide NoDuplicates;
    var x, rest := values[0], values[1..];
    assert values == [x] + rest;
    FirstApart(x, rest);
    if x != ip {
      RemovedOne(rest, ip);
      FirstApart(x, RemoveOne(rest, ip));
    }
  }

  /** Exactly the gateway of `r` is gone. */
  ghost predicate HoldsWithout(s: Db, t: Db, r: LrId) {
    forall q, k, o, n, a :: Holds(t, q, k, o, n, a) <==> Holds(s, q, k, o, n, a) && q != r
  }

  lemma ReleasedHolds(s: Db, t: Db, r: LrId, l: LrpRow)
    requires Unique(s) && GatewaysHeld(s) && IsGatewayPort(s, r, l) && LegsWithout(s, t, {l}) && t.lrps == s.lrps - {l}
    requires r in t.routers && t.routers[r].gatewayPort == None && t.routers == s.routers[r := t.routers[r]]
    ensures HoldsWithout(s, t, r)
  {
    forall q | IsGatewayPort(s, q, l)
      ensures q == r
    {
      GatewayPortIsOwn(s, q, l);
      GatewayPortIsOwn(s, r, l);
    }
    hide Leg, RouterPortName;
  }

  lemma ReleasedHeld(s: Db, t: Db, r: LrId, l: LrpRow, row: LspRow, ls: LsId, ip: Ip)
    requires Unique(s) && OneHolder(s) && Holds(s, r, l, row, ls, ip) && HoldsWithout(s, t, r)
    requires forall k, o, n, a :: Holds(s, r, k, o, n, a) ==> n == ls && a == ip
    ensures forall n, a :: Held(t, n, a) <==> Held(s, n, a) && !(n == ls && a == ip)
    ensures forall q :: HasGateway(t, q) <==> HasGateway(s, q) && q != r
  {
    hide Holds, Unique;
  }

  lemma OneGatewayAddress(s: Db, r: LrId, l: LrpRow, row: LspRow, ls: LsId, ip: Ip)
    requires Unique(s) && Holds(s, r, l, row, ls, ip)
    ensures forall k, o, n, a :: Holds(s, r, k, o, n, a) ==> n == ls && a == ip
  {
    hide RouterPortName;
    forall k, o, n, a | Holds(s, r, k, o, n, a)
      ensures n == ls && a == ip
    {
      PairIsUnique(s, l, row, k, o);
    }
  }

  lemma ReleasedConserves(s: Db, t: Db, r: LrId, l: LrpRow, row: LspRow, ls: LsId, ip: Ip)
    requires Unique(s) && Refers(s) && Conserved(s) && Holds(s, r, l, row, ls, ip) && LegsWithout(s, t, {l})
    requires t.lrps == s.lrps - {l}
    requires r in t.routers && t.routers[r].gatewayPort == None && t.routers == s.routers[r := t.routers[r]]
    requires ls in s.switches && t.switches == s.switches[ls := RemoveOne(s.switches[ls], ip)]
    requires forall o :: o in t.lsps ==> o in s.lsps && t.lsps[o] == s.lsps[o]
    ensures Conserved(t)
  {
    ReleasedHolds(s, t, r, l);
    OneGatewayAddress(s, r, l, row, ls, ip);
    ReleasedHeld(s, t, r, l, row, ls, ip);
    HeldIsExcluded(s, r, l, row, ls, ip);
    RemovedOne(s.switches[ls], ip);
    hide Holds, HasGateway, Held, LegsWithout, Unique, RemoveOne, NoDuplicates, FixedApart;
    ReleasedFixed(s, t, ls);
    assert GatewaysHeld(t) && ExcludesHeld(t) && OneHolder(t);
  }

  lemma ReleasedFixed(s: Db, t: Db, ls: LsId)
    requires FixedApart(s) && ls in s.switches && ls in t.switches && t.switches == s.switches[ls := t.switches[ls]]
    requires forall a :: a in t.switches[ls] ==> a in s.switches[ls]
    requires forall o :: o in t.lsps ==> o in s.lsps && t.lsps[o] == s.lsps[o]
    ensures FixedApart(t)
  {
    assert forall o, n, a :: FixedAt(t, o, n, a) ==> FixedAt(s, o, n, a);
    hide FixedAt;
  }

  // ---------------------------------------------------------------------------------------------
  // Detaching
  // ---------------------------------------------------------------------------------------------

  /** What a call leaves when a port goes: either the gateway of the router is cleaned up, or nothing is. */
  ghost predicate PortGone(s: Db, t: Db, r: LrId, l: LrpRow, row: LspRow, isExternal: bool)
    requires r in s.routers && l in s.lrps && row in s.lsps && s.lsps[row].ls in s.switches
  {
    var ls, ip := s.lsps[row].ls, s.lrps[l].ip;
    && t.lsps == s.lsps - {row} && t.lrps == s.lrps - {l}
    && if isExternal
       then && r in t.routers && t.routers[r].gatewayPort == None && t.routers == s.routers[r := t.routers[r]]
            && (ip in s.switches[ls] ==> t.switches == s.switches[ls := RemoveOne(s.switches[ls], ip)])
       else t.routers == s.routers && t.switches == s.switches
  }

  lemma CleanedUpTables(s: Db, r: LrId, l: LrpRow, row: LspRow, d: SubnetId, isGateway: bool, isExternal: bool)
    requires r in s.routers && l in s.lrps && row in s.lsps && s.lsps[row].ls in s.switches && d in s.subnets
    ensures PortGone(s, CleanedUp(Detached(s, row, l), r, d, isGateway, isExternal, s.lsps[row].ls, s.lrps[l].ip).0, r,
                     l, row, isExternal)
  {
    hide RemoveOne;
  }

  ghost predicate IsExternal(s: Db, r: LrId, ref: PortRef) {
    r in s.routers && s.routers[r].gatewayPort.Some? && ref == ByName(s.routers[r].gatewayPort.value)
  }

  lemma DetachedTables(s: Db, r: LrId, ref: PortRef, order: seq<LrpRow>, l: LrpRow, row: LspRow, d: SubnetId)
    requires Sound(s) && Refers(s) && Lists(s, r, order)
    requires Pair(s, l, row) && LspAt(s, ref) == Some(row) && r in s.routers && SubnetOn(s, s.lsps[row].ls) == Some(d)
    requires d in s.subnets
    ensures s.lsps[row].ls in s.switches
    ensures var t := DetachedByPort(s, r, ref, order).0; t != s ==> PortGone(s, t, r, l, row, IsExternal(s, r, ref))
  {
    SoundUnique(s);
    PairFound(s, l, row);
    hide Sound, LspAt, LrpAt, SubnetOn, Scan, Lists, Unique, RouterPortName, RemoveOne, CleanedUp, PortGone;
    CleanedUpTables(s, r, l, row, d, true, IsExternal(s, r, ref));
    CleanedUpTables(s, r, l, row, d, false, IsExternal(s, r, ref));
  }

  /** The router's gateway port is not handed to the call by its row id. */
  ghost predicate SparesPort(s: Db, r: LrId, ref: PortRef) {
    ref.ByRow? && ref.row in s.lsps && r in s.routers ==> s.routers[r].gatewayPort != Some(s.lsps[ref.row].name)
  }

  lemma DetachedByPortConserves(s: Db, r: LrId, ref: PortRef, order: seq<LrpRow>)
    requires Sound(s) && Refers(s) && Conserved(s) && Lists(s, r, order)
    ensures var t := DetachedByPort(s, r, ref, order).0; t != s ==> (Conserved(t) <==> SparesPort(s, r, ref))
  {
    hide Sound, Conserved, Lists, DetachedByPort, LegsWithout, SubnetOn, LspAt, SparesPort, PortGone;
    var l, row, d := DetachedByPortKeeps(s, r, ref, order);
    if DetachedByPort(s, r, ref, order).0 != s {
      DetachedTables(s, r, ref, order, l, row, d);
      RefersToRow(s, ref, row);
      SoundUnique(s);
      PortGoneConserves(s, DetachedByPort(s, r, ref, order).0, r, ref, l, row);
    }
  }

  lemma PortGoneConserves(s: Db, t: Db, r: LrId, ref: PortRef, l: LrpRow, row: LspRow)
    requires Unique(s) && Refers(s) && Conserved(s) && Pair(s, l, row) && s.lrps[l].lr == r && r in s.routers
    requires s.lsps[row].ls in s.switches
    requires if ref.ByRow? then ref.row == row else ref.name == s.lsps[row].name
    requires LegsWithout(s, t, {l}) && PortGone(s, t, r, l, row, IsExternal(s, r, ref))
    ensures Conserved(t) <==> SparesPort(s, r, ref)
  {
    if s.routers[r].gatewayPort != Some(s.lsps[row].name) {
      PairIsNoGateway(s, r, l, row);
      hide LegsWithout, IsGatewayPort, Pair, Unique;
      OtherLegsConserve(s, t, {l});
    } else {
      GatewayOfPair(s, r, l, row);
      if ref.ByName? {
        HeldIsExcluded(s, r, l, row, s.lsps[row].ls, s.lrps[l].ip);
        hide LegsWithout, IsGatewayPort, Pair, Unique, Holds, Conserved;
        ReleasedConserves(s, t, r, l, row, s.lsps[row].ls, s.lrps[l].ip);
      } else {
        hide LegsWithout, Pair, Unique, Holds, Conserved;
        LostGateway(s, t, r, l, {l});
      }
    }
  }

  lemma RefersToRow(s: Db, ref: PortRef, row: LspRow)
    requires LspAt(s, ref) == Some(row)
    ensures row in s.lsps && (if ref.ByRow? then ref.row == row else ref.name == s.lsps[row].name)
  {
  }

  lemma HeldIsExcluded(s: Db, r: LrId, l: LrpRow, row: LspRow, ls: LsId, ip: Ip)
    requires Conserved(s) && Holds(s, r, l, row, ls, ip) && ls in s.switches
    ensures ip in s.switches[ls]
  {
    hide Holds;
    assert Held(s, ls, ip);
  }

  lemma GatewayOfPair(s: Db, r: LrId, l: LrpRow, row: LspRow)
    requires Pair(s, l, row) && s.lrps[l].lr == r && r in s.routers
    requires s.routers[r].gatewayPort == Some(s.lsps[row].name)
    ensures IsGatewayPort(s, r, l) && Holds(s, r, l, row, s.lsps[row].ls, s.lrps[l].ip)
  {
  }

  lemma PairIsNoGateway(s: Db, r: LrId, l: LrpRow, row: LspRow)
    requires Unique(s) && GatewaysHeld(s) && Pair(s, l, row) && s.lrps[l].lr == r && r in s.routers
    requires s.routers[r].gatewayPort != Some(s.lsps[row].name)
    ensures forall q :: !IsGatewayPort(s, q, l)
  {
    hide RouterPortName;
    forall q | IsGatewayPort(s, q, l)
      ensures false
    {
      GatewayPortIsOwn(s, q, l);
      NamesAreInjective(s.routers[q].gatewayPort.value, s.lsps[row].name);
    }
  }

  /** The gateway port of the router is on the network of the subnet. */
  ghost predicate GatewayOn(s: Db, r: LrId, d: SubnetId) {
    && r in s.routers && d in s.subnets && s.routers[r].gatewayPort.Some?
    && exists row :: Named(s, row, s.routers[r].gatewayPort.value) && s.lsps[row].ls == s.subnets[d].ls
  }

  lemma GatewayGone(s: Db, r: LrId, d: SubnetId, gone: set<LrpRow>)
    requires Sound(s) && GatewaysHeld(s) && r in s.routers && d in s.subnets && LegsOf(s, gone, r, s.subnets[d].ls)
    ensures GatewayOn(s, r, d) ==> exists l :: l in gone && IsGatewayPort(s, r, l)
    ensures !GatewayOn(s, r, d) ==> forall q, l, row :: l in gone && Pair(s, l, row) ==> !IsGatewayPort(s, q, l)
  {
    SoundUnique(s);
    hide Sound, RouterPortName;
    if GatewayOn(s, r, d) {
      var row :| Named(s, row, s.routers[r].gatewayPort.value) && s.lsps[row].ls == s.subnets[d].ls;
      GatewayNameIsRouterPort(s, r, row);
      var l, ls, ip :| Holds(s, r, l, row, ls, ip);
      assert l in gone;
    } else {
      forall q, l, row | l in gone && Pair(s, l, row)
        ensures !IsGatewayPort(s, q, l)
      {
        if IsGatewayPort(s, q, l) {
          GatewayPortIsOwn(s, q, l);
          NamesAreInjective(s.routers[q].gatewayPort.value, s.lsps[row].name);
        }
      }
    }
  }

  lemma DetachedBySubnetConserves(s: Db, r: LrId, d: SubnetId)
    requires Sound(s) && Refers(s) && Conserved(s)
    ensures Conserved(DetachedBySubnet(s, r, d).0) <==> !GatewayOn(s, r, d)
  {
    if r in s.routers && d in s.subnets {
      var t := DetachedBySubnet(s, r, d).0;
      var gone := DetachedBySubnetKeeps(s, r, d);
      GatewayGone(s, r, d, gone);
      SoundUnique(s);
      hide Sound, GatewayOn, LegsWithout, LegsOf, LegOn, LspOf, Unique;
      if GatewayOn(s, r, d) {
        var l :| l in gone && IsGatewayPort(s, r, l);
        hide Conserved, IsGatewayPort;
        LostGateway(s, t, r, l, gone);
      } else {
        forall q, l | l in gone
          ensures !IsGatewayPort(s, q, l)
        {
          var row := EveryLrpPairs(s, l);
        }
        hide Conserved, IsGatewayPort;
        OtherLegsConserve(s, t, gone);
      }
    }
  }

  lemma RouterGoneConserves(s: Db, r: LrId)
    requires Refers(s) && Conserved(s) && HasNoPorts(s, r)
    ensures Conserved(s.(routers := s.routers - {r}))
  {
    var t := s.(routers := s.routers - {r});
    RouterGoneHolds(s, t, r);
    hide GatewaysHeld, ExcludesHeld, OneHolder, FixedApart;
    FewerFixed(s, t);
    hide HoldsAlike, Refers;
    AlikeConserved(s, t);
  }

  lemma RouterGoneHolds(s: Db, t: Db, r: LrId)
    requires HasNoPorts(s, r) && t == s.(routers := s.routers - {r})
    ensures HoldsAlike(s, t)
  {
    hide RouterPortName;
  }

  lemma RouterDeletedConserves(s: Db, r: LrId, order: seq<LrpRow>)
    requires Kept(s) && Refers(s) && Conserved(s) && Lists(s, r, order)
    ensures Conserved(RouterDeleted(s, r, order).0)
  {
    hide Sound, GatewaysServe, Conserved, DetachedByPort, Lists, Refers;
    if r in s.routers {
      var freed := s;
      if s.routers[r].gatewayPort.Some? {
        var ref := ByName(s.routers[r].gatewayPort.value);
        freed := DetachedByPort(s, r, ref, order).0;
        DetachedByPortServes(s, r, ref, order);
        KeptRefers(freed);
        if freed != s {
          DetachedByPortConserves(s, r, ref, order);
        }
      }
      if HasNoPorts(freed, r) {
        RouterGoneConserves(freed, r);
      }
    }
  }

  // ---------------------------------------------------------------------------------------------
  // Runs
  // ---------------------------------------------------------------------------------------------

  /** The external gateway of a router goes by its name, not by its row id and not by its subnet. */
  ghost predicate Spares(s: Db, op: Op) {
    match op
    case DetachPort(r, ref, _) => SparesPort(s, r, ref)
    case DetachBoth(r, _, ref, _) => SparesPort(s, r, ref)
    case DetachSubnet(r, d) => !GatewayOn(s, r, d)
    case _ => true
  }

  lemma AttachmentsConserve(s: Db, op: Op)
    requires Sound(s) && Refers(s) && Conserved(s) && Legal(s, op) && (op.AttachSubnet? || op.AttachPort?)
    ensures Conserved(Step(s, op).0)
  {
    var t := Step(s, op).0;
    if op.AttachSubnet? {
      hide Sound, Conserved, Scan, Lists, SubnetOn, NewLsp, RouterPortName;
      if t != s {
        var subnet := s.subnets[op.d];
        InterfaceConserves(s, op.port.row, op.port.name, subnet.ls, op.l, op.r, subnet.gateway.value, t);
      }
    } else {
      FoundIsThere(s, op.ref);
      hide Sound, Conserved, Scan, Lists, SubnetOn, NewLsp, LspAt, RouterPortName;
      if t != s {
        var row := LspAt(s, op.ref).value;
        var p := s.lsps[row];
        InterfaceConserves(s, row, p.name, p.ls, op.l, op.r, PortIp(p, row, op.leases).value, t);
      }
    }
  }

  lemma DetachmentsConserve(s: Db, op: Op)
    requires Sound(s) && Refers(s) && Conserved(s) && Legal(s, op)
    requires (op.DetachPort? || op.DetachSubnet? || op.DetachBoth?)
    ensures Step(s, op).0 != s ==> (Conserved(Step(s, op).0) <==> Spares(s, op))
  {
    hide Sound, Conserved, Lists, DetachedByPort, DetachedBySubnet, SparesPort, GatewayOn, Refers, LspAt;
    if Step(s, op).0 != s {
      if op.DetachSubnet? {
        DetachedBySubnetConserves(s, op.r, op.d);
      } else {
        DetachedByPortConserves(s, op.r, op.ref, op.order);
      }
    }
  }

  /** A call that changes anything keeps the reservations exactly when it spares the external gateway. */
  lemma StepConservedIffSpared(s: Db, op: Op)
    requires Kept(s) && Refers(s) && Conserved(s) && Legal(s, op)
    ensures Spares(s, op) ==> Conserved(Step(s, op).0)
    ensures Step(s, op).0 != s ==> (Conserved(Step(s, op).0) <==> Spares(s, op))
  {
    KeptRefers(s);
    hide Sound, GatewaysServe, Conserved, Refers, Lists, NewLsp, LspAt, SparesPort, GatewayOn;
    hide RouterDeleted, DetachedByPort, DetachedBySubnet, RouterAdded, RouterUpdated, AttachedBySubnet, AttachedByPort;
    hide NetworkAdded, NetworkDeleted, SubnetAdded, SubnetDeleted, PortAdded, PortUpdated, PortDeleted;
    if !IsRouterCall(op) {
      PlainCallsConserve(s, op);
    } else {
      match op
      case AddRouter(r, gw, port, l, routes, leases) => RouterAddedConserves(s, r, gw, port, l, routes, leases);
      case UpdateRouter(r, gw, port, l, change, leases) => RouterUpdatedConserves(s, r, gw, port, l, change, leases);
      case DeleteRouter(r, order) => RouterDeletedConserves(s, r, order);
      case AttachSubnet(_, _, _, _, _) => AttachmentsConserve(s, op);
      case AttachPort(_, _, _, _, _) => AttachmentsConserve(s, op);
      case DetachPort(_, _, _) => DetachmentsConserve(s, op);
      case DetachSubnet(_, _) => DetachmentsConserve(s, op);
      case DetachBoth(_, _, _, _) => DetachmentsConserve(s, op);
    }
  }

  /** Every call of the run that changes anything spares the external gateway. */
  ghost predicate SparingRun(s: Db, ops: seq<Op>)
    requires Kept(s) && Refers(s) && LegalRun(s, ops)
    decreases |ops|
  {
    ops == [] || (StepKept(s, ops[0]);
                  && (Step(s, ops[0]).0 != s ==> Spares(s, ops[0]))
                  && SparingRun(Step(s, ops[0]).0, ops[1..]))
  }

  /** The reservations are conserved all along the run. */
  ghost predicate ConservedAlong(s: Db, ops: seq<Op>)
    requires Kept(s) && Refers(s) && LegalRun(s, ops)
    decreases |ops|
  {
    Conserved(s) && (ops == [] || (StepKept(s, ops[0]); ConservedAlong(Step(s, ops[0]).0, ops[1..])))
  }

  lemma {:induction false} ConservedAtEnd(s: Db, ops: seq<Op>)
    requires Kept(s) && Refers(s) && LegalRun(s, ops) && ConservedAlong(s, ops)
    ensures Conserved(Run(s, ops))
    decreases |ops|
  {
    hide Step, Kept, Refers, Legal, Conserved;
    if ops != [] {
      StepKept(s, ops[0]);
      ConservedAtEnd(Step(s, ops[0]).0, ops[1..]);
    }
  }

  lemma NotConservedAlong(s: Db, ops: seq<Op>)
    requires Kept(s) && Refers(s) && LegalRun(s, ops) && !Conserved(s)
    ensures !ConservedAlong(s, ops)
  {
    hide Conserved, Kept, Refers, LegalRun, Step;
  }

  /** The reservations are conserved all along a run exactly when every call of it that changes anything
      spares the external gateway. */
  lemma {:induction false} RunConservedIff(s: Db, ops: seq<Op>)
    requires Kept(s) && Refers(s) && Conserved(s) && LegalRun(s, ops)
    ensures ConservedAlong(s, ops) <==> SparingRun(s, ops)
    decreases |ops|
  {
    hide Step, Kept, Refers, Legal, Conserved, Spares;
    if ops != [] {
      StepKept(s, ops[0]);
      StepConservedIffSpared(s, ops[0]);
      if Conserved(Step(s, ops[0]).0) {
        RunConservedIff(Step(s, ops[0]).0, ops[1..]);
      } else {
        NotConservedAlong(Step(s, ops[0]).0, ops[1..]);
      }
    }
  }

  ghost predicate SparingFromEmpty(ops: seq<Op>)
    requires LegalFromEmpty(ops)
  {
    EmptyIsKept();
    SparingRun(EMPTY, ops)
  }

  /** In every state such a run reaches, an address is excluded on a network exactly when an external
      gateway holds it there, and exclusions and static addresses never collide. */
  lemma ReachableReservations(ops: seq<Op>)
    requires LegalFromEmpty(ops) && SparingFromEmpty(ops)
    ensures var s := Reached(ops);
            && (forall ls :: ls in s.switches ==> NoDuplicates(s.switches[ls]))
            && (forall ls, ip :: ls in s.switches ==> (ip in s.switches[ls] <==> Held(s, ls, ip)))
            && (forall row, ls, ip :: FixedAt(s, row, ls, ip) && ls in s.switches ==> ip !in s.switches[ls])
            && (forall row, o, ls, ip :: FixedAt(s, row, ls, ip) && FixedAt(s, o, ls, ip) ==> row == o)
  {
    hide Run, LegalRun, SparingRun, ConservedAlong, Kept, Refers, Held, FixedAt, NoDuplicates;
    EmptyIsKept();
    EmptyIsConserved();
    RunConservedIff(EMPTY, ops);
    ConservedAtEnd(EMPTY, ops);
  }

  lemma EmptyIsConserved()
    ensures Conserved(EMPTY)
  {
  }
}
