/** The network, subnet, port and router calls in the terms of their callers: which addresses ports get,
    which calls are refused, what one call undoes of another, and the routes of a new router. */
module RouterCalls {
  import opened Text
  import opened Routes
  import opened RouterTables
  import opened Routers
  import opened RouterPairing
  import opened RouterRuns

  // ---------------------------------------------------------------------------------------------
  // The addresses of ports
  // ---------------------------------------------------------------------------------------------

  ghost predicate HasSubnet(s: Db, ls: LsId) {
    exists d :: SubnetIsOn(s, d, ls)
  }

  /** No port of the network has the address, and it is not kept back for a gateway. */
  ghost predicate Free(s: Db, ls: LsId, ip: Ip, leases: Leases) {
    && (forall row :: row in s.lsps && s.lsps[row].ls == ls ==> PortIp(s.lsps[row], row, leases) != Some(ip))
    && (ls in s.switches ==> ip !in s.switches[ls])
  }

  function AddressAsked(fixed: Option<Fixed>): Option<Ip> {
    if fixed == None then None else fixed.value.ip
  }

  /** What is asked of a network can be had there: a fixed address only where there is a subnet, the one
      named if one is, and an address that is free. */
  ghost predicate CanHave(s: Db, ls: LsId, fixed: Option<Fixed>, leases: Leases) {
    fixed.Some? ==>
      && HasSubnet(s, ls)
      && (fixed.value.subnet.Some? ==> SubnetIsOn(s, fixed.value.subnet.value, ls))
      && (fixed.value.ip.Some? ==> Free(s, ls, fixed.value.ip.value, leases))
  }

  lemma SubnetOnIs(s: Db, ls: LsId)
    requires Unique(s)
    ensures SubnetOn(s, ls) == None <==> !HasSubnet(s, ls)
    ensures forall d: SubnetId :: SubnetIsOn(s, d, ls) <==> SubnetOn(s, ls) == Some(d)
  {
  }

  /** The address the port of a row has, once OVN has assigned those that are left to it. */
  ghost predicate GotAddress(s: Db, t: Db, row: LspRow, fixed: Option<Fixed>, later: Leases) {
    && row in t.lsps && row in later
    && var ls := t.lsps[row].ls;
       PortIp(t.lsps[row], row, later) ==
       if !HasSubnet(s, ls) then None
       else if AddressAsked(fixed).Some? then AddressAsked(fixed)
       else Some(later[row])
  }

  lemma FreeIsAvailable(s: Db, ls: LsId, ip: Ip, leases: Leases)
    requires ls in s.switches
    ensures Available(s, ls, ip, leases) <==> Free(s, ls, ip, leases)
  {
    if Free(s, ls, ip, leases) {
      assert forall row :: !HasIp(s, row, ls, ip, leases);
    }
    forall row | row in s.lsps && s.lsps[row].ls == ls && Available(s, ls, ip, leases)
      ensures PortIp(s.lsps[row], row, leases) != Some(ip)
    {
      assert !HasIp(s, row, ls, ip, leases);
    }
  }

  lemma NewAddressesGive(s: Db, ls: LsId, fixed: Option<Fixed>, leases: Leases, p: Lsp, row: LspRow, later: Leases)
    requires Unique(s) && ls in s.switches && row in later
    ensures NewAddresses(s, ls, fixed, leases).Some? <==> CanHave(s, ls, fixed, leases)
    ensures NewAddresses(s, ls, fixed, leases) == Some(p.addresses) ==>
              PortIp(p, row, later) ==
              if !HasSubnet(s, ls) then None
              else if AddressAsked(fixed).Some? then AddressAsked(fixed)
              else Some(later[row])
  {
    SubnetOnIs(s, ls);
    if fixed.Some? && fixed.value.ip.Some? {
      FreeIsAvailable(s, ls, fixed.value.ip.value, leases);
    }
    hide SubnetOn, Available, Free, Unique, HasSubnet;
  }

  /** On a network with a subnet a new port has the address it asks for, or the one OVN assigns it; without
      a subnet it has none.  It is refused exactly when what it asks for cannot be had; the port stays then,
      without an address. */
  lemma AddedPortHasAddress(s: Db, port: NewPort, ls: LsId, owner: Owner, fixed: Option<Fixed>, leases: Leases,
                            later: Leases)
    requires Unique(s) && port.row in later
    ensures var (t, ok) := PortAdded(s, port, ls, owner, fixed, leases);
            && (ok <==> ls in s.switches && CanHave(s, ls, fixed, leases))
            && (ok ==> GotAddress(s, t, port.row, fixed, later))
            && (ls !in s.switches ==> t == s)
            && (ls in s.switches ==>
                  && port.row in t.lsps && t == s.(lsps := s.lsps[port.row := t.lsps[port.row]])
                  && t.lsps[port.row] == Lsp(port.name, ls, PlainPort, None, owner, t.lsps[port.row].addresses)
                  && (!ok ==> PortIp(t.lsps[port.row], port.row, later) == None))
  {
    hide NewAddresses, CanHave, Unique, HasSubnet;
    if ls in s.switches {
      var t := PortAdded(s, port, ls, owner, fixed, leases).0;
      NewAddressesGive(s, ls, fixed, leases, t.lsps[port.row], port.row, later);
      SameSubnets(s, t, ls);
    }
  }

  lemma SameSubnets(s: Db, t: Db, ls: LsId)
    requires t.subnets == s.subnets
    ensures HasSubnet(t, ls) <==> HasSubnet(s, ls)
  {
    assert forall d :: SubnetIsOn(t, d, ls) <==> SubnetIsOn(s, d, ls);
  }

  /** An update with a MAC, or of a port that has addresses, gives the port its address anew in the same way;
      the owner is written even when that is refused. */
  lemma UpdatedPortHasAddress(s: Db, ref: PortRef, row: LspRow, owner: Option<Owner>, mac: bool,
                              fixed: Option<Fixed>, leases: Leases, later: Leases)
    requires Unique(s) && Refers(s) && LspAt(s, ref) == Some(row) && row in s.lsps && row in later
    requires mac || s.lsps[row].addresses != NoAddresses
    ensures var (t, ok) := PortUpdated(s, ref, None, owner, mac, fixed, leases);
            && (ok <==> CanHave(s, s.lsps[row].ls, fixed, leases))
            && (ok ==> GotAddress(s, t, row, fixed, later))
            && row in t.lsps && t == s.(lsps := s.lsps[row := t.lsps[row]])
            && t.lsps[row].(addresses := s.lsps[row].addresses) ==
               s.lsps[row].(owner := if owner.Some? then owner.value else s.lsps[row].owner)
            && (!ok ==> t.lsps[row].addresses == s.lsps[row].addresses)
  {
    hide NewAddresses, CanHave, Unique, HasSubnet, LspAt, SubnetOn;
    var t := PortUpdated(s, ref, None, owner, mac, fixed, leases).0;
    NewAddressesGive(s, s.lsps[row].ls, fixed, leases, t.lsps[row], row, later);
    SameSubnets(s, t, s.lsps[row].ls);
  }

  /** Without a MAC, on a port that has no addresses, only the owner is written, and it is refused when the
      subnet named is not the network's. */
  lemma UpdatedPortWithoutAddress(s: Db, ref: PortRef, row: LspRow, owner: Option<Owner>, fixed: Option<Fixed>,
                                  leases: Leases)
    requires Unique(s) && Refers(s) && LspAt(s, ref) == Some(row) && row in s.lsps
    requires s.lsps[row].addresses == NoAddresses
    ensures PortUpdated(s, ref, None, owner, false, fixed, leases) ==
            (s.(lsps := s.lsps[row := s.lsps[row].(owner := if owner.Some? then owner.value else s.lsps[row].owner)]),
             CanHave(s, s.lsps[row].ls, if fixed == None then None else Some(fixed.value.(ip := None)), leases))
  {
    SubnetOnIs(s, s.lsps[row].ls);
    hide NewAddresses, Unique, HasSubnet, LspAt, SubnetOn, Free;
  }

  /** An update that names another network is refused, and writes nothing. */
  lemma OtherNetworkIsRefused(s: Db, ref: PortRef, row: LspRow, ls: LsId, owner: Option<Owner>, mac: bool,
                              fixed: Option<Fixed>, leases: Leases)
    requires Refers(s) && LspAt(s, ref) == Some(row) && row in s.lsps
    ensures PortUpdated(s, ref, Some(ls), owner, mac, fixed, leases) ==
            if s.lsps[row].ls != ls then (s, false) else PortUpdated(s, ref, None, owner, mac, fixed, leases)
  {
    hide UpdatedLsp, LspAt;
  }

  // ---------------------------------------------------------------------------------------------
  // Attaching by port
  // ---------------------------------------------------------------------------------------------

  /** Every port of the router is on a network with a subnet. */
  ghost predicate OnSubnets(s: Db, r: LrId) {
    forall l, row :: Pair(s, l, row) && s.lrps[l].lr == r ==> HasSubnet(s, s.lsps[row].ls)
  }

  lemma {:induction false} ScansThrough(s: Db, order: seq<LrpRow>)
    requires Sound(s) && forall i :: 0 <= i < |order| ==> order[i] in s.lrps
    ensures Scan(s, order, None) == None <==>
            exists i, row :: 0 <= i < |order| && Pair(s, order[i], row) && !HasSubnet(s, s.lsps[row].ls)
    decreases |order|
  {
    if order != [] {
      var row := EveryLrpPairs(s, order[0]);
      SoundUnique(s);
      PairFound(s, order[0], row);
      SubnetOnIs(s, s.lsps[row].ls);
      ScansThrough(s, order[1..]);
    }
  }

  lemma ScannedIffOnSubnets(s: Db, r: LrId, order: seq<LrpRow>)
    requires Sound(s) && Lists(s, r, order)
    ensures Scan(s, order, None).Some? <==> OnSubnets(s, r)
  {
    ScansThrough(s, order);
    hide Sound, Pair, HasSubnet, Scan;
    forall l, row | Pair(s, l, row) && l in s.lrps && s.lrps[l].lr == r
      ensures exists i :: 0 <= i < |order| && order[i] == l
    {
      assert l in order;
    }
  }

  /** A port is attached exactly when router and port are there, the port is not a router's, it and all the
      router's ports are on networks with subnets, and it has an address. */
  lemma AttachedByPortIff(s: Db, r: LrId, ref: PortRef, row: LspRow, l: LrpRow, order: seq<LrpRow>, leases: Leases)
    requires Sound(s) && Refers(s) && Lists(s, r, order) && LspAt(s, ref) == Some(row) && row in s.lsps
    ensures var (t, ok) := AttachedByPort(s, r, ref, l, order, leases);
            && (ok <==> && r in s.routers && s.lsps[row].kind != RouterPort && HasSubnet(s, s.lsps[row].ls)
                        && OnSubnets(s, r) && PortIp(s.lsps[row], row, leases).Some?)
            && (!ok ==> t == s)
            && (ok ==> t == Attached(s, row, s.lsps[row].name, s.lsps[row].ls, InterfaceOwner, l, r,
                                     PortIp(s.lsps[row], row, leases).value))
  {
    ScannedIffOnSubnets(s, r, order);
    SoundUnique(s);
    SubnetOnIs(s, s.lsps[row].ls);
    hide Sound, Scan, SubnetOn, LspAt, PortIp, OnSubnets, HasSubnet, Attached, Lists, Unique, Refers;
  }

  /** So a port made without asking for an address, on a network with a subnet, is not refused for want of
      one: it is attached at the address OVN has assigned it. */
  lemma NewPortIsAttached(s: Db, port: NewPort, ls: LsId, owner: Owner, leases: Leases, r: LrId, l: LrpRow,
                          order: seq<LrpRow>, later: Leases)
    requires Sound(s) && Refers(s) && NewLsp(s, port) && ls in s.switches && HasSubnet(s, ls) && port.row in later
    requires r in s.routers && Lists(s, r, order) && OnSubnets(s, r)
    ensures var (t, made) := PortAdded(s, port, ls, owner, None, leases);
            && made && Lists(t, r, order)
            && var (u, ok) := AttachedByPort(t, r, ByRow(port.row), l, order, later);
               ok && l in u.lrps && u.lrps[l].lr == r && u.lrps[l].ip == later[port.row]
  {
    var t := PortAdded(s, port, ls, owner, None, leases).0;
    SoundUnique(s);
    AddedPortHasAddress(s, port, ls, owner, None, leases, later);
    SameSubnets(s, t, ls);
    hide NewAddresses, PortAdded, HasSubnet, PortIp, Unique;
    PlainLspSound(s, port.row, t.lsps[port.row]);
    PlainLspOnSubnets(s, t, r, port.row);
    hide OnSubnets, Sound;
    AttachedByPortIff(t, r, ByRow(port.row), port.row, l, order, later);
  }

  lemma PlainLspOnSubnets(s: Db, t: Db, r: LrId, row: LspRow)
    requires OnSubnets(s, r) && row !in s.lsps && row in t.lsps && t == s.(lsps := s.lsps[row := t.lsps[row]])
    requires t.lsps[row].kind != RouterPort
    ensures OnSubnets(t, r)
  {
    hide HasSubnet, RouterPortName;
    forall l, o | Pair(t, l, o) && t.lrps[l].lr == r
      ensures HasSubnet(t, t.lsps[o].ls)
    {
      assert Pair(s, l, o);
      SameSubnets(s, t, t.lsps[o].ls);
    }
  }

  // ---------------------------------------------------------------------------------------------
  // Detaching by port
  // ---------------------------------------------------------------------------------------------

  /** The tables without a port and its leg; the subnet of the network forgets its gateway router when the
      leg had the subnet's gateway address. */
  ghost function WithoutPort(s: Db, row: LspRow, l: LrpRow, d: SubnetId): Db
    requires d in s.subnets && l in s.lrps
  {
    s.(lsps := s.lsps - {row}, lrps := s.lrps - {l},
       subnets := if s.subnets[d].gateway != Some(s.lrps[l].ip) then s.subnets
                  else s.subnets[d := s.subnets[d].(gatewayRouter := None)])
  }

  /** The leg of another router is not detached. */
  lemma OthersLegIsRefused(s: Db, r: LrId, ref: PortRef, row: LspRow, l: LrpRow, order: seq<LrpRow>)
    requires Sound(s) && Refers(s) && Lists(s, r, order) && Pair(s, l, row) && LspAt(s, ref) == Some(row)
    requires s.lrps[l].lr != r
    ensures DetachedByPort(s, r, ref, order) == (s, false)
  {
    SoundUnique(s);
    PairFound(s, l, row);
    hide Sound, Unique, Scan, SubnetOn, LspAt, LrpAt, CleanedUp, LspOf, RouterPortName;
  }

  /** A leg of the router goes with its port, when it is not named as the router's gateway. */
  lemma DetachedLegIs(s: Db, r: LrId, ref: PortRef, row: LspRow, l: LrpRow, d: SubnetId, order: seq<LrpRow>)
    requires Sound(s) && Refers(s) && Lists(s, r, order) && Pair(s, l, row) && LspAt(s, ref) == Some(row)
    requires s.lrps[l].lr == r && SubnetIsOn(s, d, s.lsps[row].ls) && OnSubnets(s, r)
    requires s.routers[r].gatewayPort.Some? ==> ref != ByName(s.routers[r].gatewayPort.value)
    ensures DetachedByPort(s, r, ref, order) == (WithoutPort(s, row, l, d), true)
  {
    SoundUnique(s);
    SubnetOnIs(s, s.lsps[row].ls);
    PairFound(s, l, row);
    LegIsScanned(s, r, row, l, d, order);
    hide Sound, Unique, Scan, SubnetOn, LspAt, LrpAt, LspOf, RouterPortName, OnSubnets;
  }

  lemma LegIsScanned(s: Db, r: LrId, row: LspRow, l: LrpRow, d: SubnetId, order: seq<LrpRow>)
    requires Sound(s) && Lists(s, r, order) && Pair(s, l, row) && s.lrps[l].lr == r
    requires SubnetOn(s, s.lsps[row].ls) == Some(d) && OnSubnets(s, r)
    ensures Scan(s, order, Some(d)) == Some(true)
  {
    ScannedIffOnSubnets(s, r, order);
    hide Sound, SubnetOn, Scan, Pair, OnSubnets;
    assert l in order;
    ScanFinds(s, order, l, row, d);
    ScansAlike(s, order, Some(d));
    var found := Scan(s, order, Some(d));
    assert found.Some? && found.value != false;
  }

  /** A search that goes through to the end finds no fault on the way to any subnet. */
  lemma {:induction false} ScansAlike(s: Db, order: seq<LrpRow>, target: Option<SubnetId>)
    requires (forall i :: 0 <= i < |order| ==> order[i] in s.lrps) && Scan(s, order, None).Some?
    ensures Scan(s, order, target).Some?
    decreases |order|
  {
    hide LspOf, SubnetOn;
    if order != [] {
      ScansAlike(s, order[1..], target);
    }
  }

  lemma AttachedOnSubnets(s: Db, t: Db, r: LrId, row: LspRow, l: LrpRow, d: SubnetId, ip: Ip)
    requires Unique(t) && row in s.lsps && OnSubnets(s, r) && SubnetIsOn(s, d, s.lsps[row].ls)
    requires t == Attached(s, row, s.lsps[row].name, s.lsps[row].ls, InterfaceOwner, l, r, ip)
    ensures Pair(t, l, row) && t.lrps[l] == Lrp(RouterPortName(s.lsps[row].name), r, ip) && OnSubnets(t, r)
    ensures SubnetIsOn(t, d, t.lsps[row].ls) && SubnetIsOn(t, d, s.lsps[row].ls)
    ensures t.lrps == s.lrps[l := t.lrps[l]] && t.lsps == s.lsps[row := t.lsps[row]]
    ensures t.subnets == s.subnets && t.routers == s.routers && t.switches == s.switches
  {
    hide RouterPortName, HasSubnet, Unique;
    forall k, o | Pair(t, k, o) && t.lrps[k].lr == r
      ensures HasSubnet(t, t.lsps[o].ls)
    {
      PairIsUnique(t, l, row, k, o);
      assert k == l || Pair(s, k, o);
      SameSubnets(s, t, t.lsps[o].ls);
      assert k == l ==> HasSubnet(t, t.lsps[o].ls) by { OneSubnet(t, d, t.lsps[row].ls); }
    }
  }

  lemma OneSubnet(s: Db, d: SubnetId, ls: LsId)
    ensures SubnetIsOn(s, d, ls) ==> HasSubnet(s, ls)
  {
  }

  /** Attaching a port and detaching it again deletes it. */
  lemma DetachAfterAttachDeletes(s: Db, r: LrId, row: LspRow, l: LrpRow, order: seq<LrpRow>, leases: Leases,
                                 d: SubnetId, later: seq<LrpRow>)
    requires Sound(s) && Refers(s) && row in s.lsps && l !in s.lrps && Lists(s, r, order)
    requires AttachedByPort(s, r, ByRow(row), l, order, leases).1 && SubnetIsOn(s, d, s.lsps[row].ls)
    requires Lists(AttachedByPort(s, r, ByRow(row), l, order, leases).0, r, later)
    ensures var t := AttachedByPort(s, r, ByRow(row), l, order, leases).0;
            && Refers(t)
            && var (u, ok) := DetachedByPort(t, r, ByRow(row), later);
               && ok && u.lsps == s.lsps - {row} && u.lrps == s.lrps
               && u.routers == s.routers && u.switches == s.switches
               && (s.subnets[d].gateway != PortIp(s.lsps[row], row, leases) ==> u.subnets == s.subnets)
  {
    hide Sound, AttachedByPort, DetachedByPort, Lists, Pair, OnSubnets, HasSubnet, Attached, OneMoreLeg, PortIp, Unique;
    var t := AttachedByPort(s, r, ByRow(row), l, order, leases).0;
    AttachedByPortIff(s, r, ByRow(row), row, l, order, leases);
    AttachedByPortKeeps(s, r, ByRow(row), l, order, leases);
    SoundUnique(t);
    hide Refers;
    var ip := PortIp(s.lsps[row], row, leases).value;
    AttachedOnSubnets(s, t, r, row, l, d, ip);
    hide SubnetIsOn;
    DetachedLegIs(t, r, ByRow(row), row, l, d, later);
    assert t.lrps - {l} == s.lrps && t.lsps - {row} == s.lsps - {row};
  }

  // ---------------------------------------------------------------------------------------------
  // Networks, subnets and ports made and deleted again
  // ---------------------------------------------------------------------------------------------

  /** A subnet is deleted exactly when it is there and names no gateway router; nothing else changes. */
  lemma SubnetDeletedIff(s: Db, d: SubnetId)
    ensures var (t, ok) := SubnetDeleted(s, d);
            && (ok <==> exists row :: d in s.subnets && s.subnets[d] == row && row.gatewayRouter == None)
            && (ok ==> d !in t.subnets && t.(subnets := s.subnets) == s
                       && forall e :: e in s.subnets && e != d ==> e in t.subnets && t.subnets[e] == s.subnets[e])
            && (!ok ==> t == s)
  {
  }

  /** The subnet a router is attached to by it is there as long as the attachment. */
  lemma AttachedSubnetIsNotDeleted(s: Db, r: LrId, d: SubnetId, port: NewPort, l: LrpRow, order: seq<LrpRow>)
    requires Lists(s, r, order) && AttachedBySubnet(s, r, d, port, l, order).1
    ensures var t := AttachedBySubnet(s, r, d, port, l, order).0;
            SubnetDeleted(t, d) == (t, false)
  {
    hide Scan, Lists, SubnetOn, RouterPortName;
  }

  /** A subnet that is added to a network without one can be deleted again, and leaves everything as it was. */
  lemma DeleteUndoesAddSubnet(s: Db, d: SubnetId, ls: LsId, v6: bool, gateway: Option<Ip>)
    requires Unique(s) && d !in s.subnets
    ensures var (t, ok) := SubnetAdded(s, d, ls, v6, gateway);
            && (ok <==> ls in s.switches && !HasSubnet(s, ls))
            && (ok ==> SubnetIsOn(t, d, ls) && t.subnets[d].v6 == v6 && t.subnets[d].gateway == gateway
                       && SubnetDeleted(t, d) == (s, true))
            && (!ok ==> t == s)
  {
    SubnetOnIs(s, ls);
    hide SubnetOn, Unique, HasSubnet;
    var t := SubnetAdded(s, d, ls, v6, gateway).0;
    assert t != s && d in t.subnets ==> t.subnets - {d} == s.subnets;
  }

  lemma NetworkIsLocal(s: Db, ls: LsId, localnet: Option<NewPort>)
    requires Refers(s) && ls !in s.switches && (localnet.Some? ==> localnet.value.row !in s.lsps)
    ensures var t := NetworkAdded(s, ls, localnet).0;
            && OnlyLocalnet(t, ls) && t.switches == s.switches[ls := []]
            && t.lrps == s.lrps && t.routers == s.routers && t.subnets == s.subnets
            && (forall row :: row in t.lsps && t.lsps[row].ls == ls <==> localnet.Some? && row == localnet.value.row)
            && (localnet == None ==> t.lsps == s.lsps)
            && (localnet.Some? ==> t.lsps == s.lsps[localnet.value.row := t.lsps[localnet.value.row]]
                                   && t.lsps[localnet.value.row].name == localnet.value.name)
  {
  }

  /** A network that is added, with its localnet port if it has one, can be deleted again, and leaves
      everything as it was; a port on it that is no localnet port is in the way. */
  lemma DeleteUndoesAddNetwork(s: Db, ls: LsId, localnet: Option<NewPort>)
    requires Sound(s) && ls !in s.switches && (localnet.Some? ==> NewLsp(s, localnet.value))
    ensures var (t, ok) := NetworkAdded(s, ls, localnet);
            && ok && NetworkDeleted(t, ls) == (s, true)
            && (forall row :: row in t.lsps && t.lsps[row].ls == ls <==>
                  localnet.Some? && row == localnet.value.row)
            && (localnet.Some? ==> t.lsps[localnet.value.row].name == localnet.value.name)
  {
    SoundUnique(s);
    hide Sound, Unique;
    var t := NetworkAdded(s, ls, localnet).0;
    NetworkIsLocal(s, ls, localnet);
    hide NetworkAdded, OnlyLocalnet;
    var u := NetworkDeleted(t, ls).0;
    assert u.switches == s.switches && u.lsps == s.lsps && u.subnets == s.subnets;
  }

  /** A network is deleted exactly when it is there and has no port but its one localnet port; its port and
      its subnet go with it, and nothing else. */
  lemma NetworkDeletedIff(s: Db, ls: LsId)
    ensures var (t, ok) := NetworkDeleted(s, ls);
            && (ok <==> ls in s.switches && forall a, b | a in s.lsps && b in s.lsps ::
                          s.lsps[a].ls == ls && s.lsps[b].ls == ls ==> a == b && s.lsps[a].kind == LocalnetPort)
            && (!ok ==> t == s)
            && (ok ==>
                  && t.switches == s.switches - {ls} && t.lrps == s.lrps && t.routers == s.routers
                  && (forall row :: row in t.lsps <==> row in s.lsps && s.lsps[row].ls != ls)
                  && (forall row :: row in t.lsps ==> t.lsps[row] == s.lsps[row])
                  && (forall d :: d in t.subnets <==> d in s.subnets && s.subnets[d].ls != ls)
                  && (forall d :: d in t.subnets ==> t.subnets[d] == s.subnets[d]))
  {
  }

  /** A port that is added is deleted again by its row or by its name, unless its owner says that it is a
      router's. */
  lemma DeleteUndoesAddPort(s: Db, port: NewPort, ls: LsId, owner: Owner, fixed: Option<Fixed>, leases: Leases,
                            ref: PortRef)
    requires NewLsp(s, port) && ls in s.switches && ref in [ByRow(port.row), ByName(port.name)]
    ensures var t := PortAdded(s, port, ls, owner, fixed, leases).0;
            PortDeleted(t, ref) == if owner == InterfaceOwner || owner == GatewayOwner then (t, false) else (s, true)
  {
    hide NewAddresses;
    var t := PortAdded(s, port, ls, owner, fixed, leases).0;
    assert LspAt(t, ref) == Some(port.row) by {
      assert Named(t, port.row, port.name);
      assert forall row :: Named(t, row, port.name) ==> row == port.row;
    }
    assert t.lsps - {port.row} == s.lsps;
  }

  // ---------------------------------------------------------------------------------------------
  // The routes of a new router
  // ---------------------------------------------------------------------------------------------

  ghost predicate DistinctPrefixes(routes: seq<Route>) {
    forall i, j :: 0 <= i < j < |routes| ==> routes[i].prefix != routes[j].prefix
  }

  /** Routes are added one after the other until one is for a destination that has a route. */
  lemma {:induction false} RoutesAddedIff(routes: map<Prefix, Hop>, more: seq<Route>)
    ensures RoutesAdded(routes, more).1 <==>
            DistinctPrefixes(more) && forall i :: 0 <= i < |more| ==> more[i].prefix !in routes
    ensures RoutesAdded(routes, more).1 ==> Pairs(RoutesAdded(routes, more).0) == Pairs(routes) + Wanted(more)
    decreases |more|
  {
    if more == [] {
      assert Wanted(more) == {};
    } else {
      var next := routes[more[0].prefix := more[0].hop];
      RoutesAddedIff(next, more[1..]);
      assert more == [more[0]] + more[1..];
      if more[0].prefix !in routes {
        OneMoreRoute(routes, more[0].prefix, more[0].hop);
        assert Wanted(more) == {more[0]} + Wanted(more[1..]);
      }
    }
  }

  ghost predicate AsksForDefault(routes: seq<Route>) {
    exists i :: 0 <= i < |routes| && routes[i].prefix in ["0.0.0.0/0", "::/0"]
  }

  lemma DefaultAsked(routes: seq<Route>)
    ensures HasDefault(routes) <==> AsksForDefault(routes)
  {
  }

  lemma PlainRouterIs(s: Db, r: LrId, port: NewPort, l: LrpRow, routes: seq<Route>, leases: Leases)
    requires Refers(s) && r !in s.routers
    ensures var (t, ok) := RouterAdded(s, r, None, port, l, routes, leases);
            && r in t.routers && t.routers - {r} == s.routers && t.routers[r].gatewayPort == None
            && (ok <==> DistinctPrefixes(routes))
            && (ok ==> Pairs(t.routers[r].routes) == Wanted(routes))
  {
    assert Pairs(map[]) == {};
    RoutesAddedIff(map[], routes);
    hide Refers, RoutesAdded, Pairs, Wanted, DistinctPrefixes;
  }

  lemma FirstRoute(p: Prefix, hop: Hop)
    ensures RoutesAdded(map[], [Route(p, hop)]) == (map[p := hop], true) && Pairs(map[p := hop]) == {Route(p, hop)}
  {
    assert Pairs(map[]) == {};
    OneMoreRoute(map[], p, hop);
  }

  lemma GatewayRouterIs(s: Db, r: LrId, gw: Gateway, port: NewPort, l: LrpRow, routes: seq<Route>, leases: Leases)
    requires Refers(s) && r !in s.routers
    ensures var (t, ok) := RouterAdded(s, r, Some(gw), port, l, routes, leases);
            var taken := GatewayFits(s, gw, leases) && !HasDefault(routes);
            && (!taken ==> t == s && !ok)
            && (taken ==>
                  && r in t.routers && t.routers - {r} == s.routers && t.routers[r].gatewayPort == Some(port.name)
                  && gw.subnet in s.subnets && s.subnets[gw.subnet].gateway.Some?
                  && (ok <==> DistinctPrefixes(routes))
                  && (ok ==> Pairs(t.routers[r].routes) ==
                             {Route(if s.subnets[gw.subnet].v6 then "::/0" else "0.0.0.0/0",
                                    s.subnets[gw.subnet].gateway.value)} + Wanted(routes)))
  {
    if GatewayFits(s, gw, leases) && !HasDefault(routes) {
      SubnetIsThere(s, gw.ls);
      hide Refers, GatewayFits, RouterPortName;
      var subnet := s.subnets[gw.subnet];
      var p, hop := DefaultRoute(subnet.v6), subnet.gateway.value;
      FirstRoute(p, hop);
      RoutesAddedIff(map[p := hop], routes);
      hide RoutesAdded, Pairs, Wanted, DistinctPrefixes;
    }
  }

  /** A new router has the routes that are asked for, and with an external gateway the gateway's default route
      besides.  It is refused, and nothing is left of it, exactly when the gateway does not fit or a default
      route is asked for beside it; two routes for one destination raise after it is made. */
  lemma NewRouterIs(s: Db, r: LrId, gw: Option<Gateway>, port: NewPort, l: LrpRow, routes: seq<Route>, leases: Leases)
    requires Refers(s) && r !in s.routers
    ensures var (t, ok) := RouterAdded(s, r, gw, port, l, routes, leases);
            var taken := gw.Some? ==> GatewayFits(s, gw.value, leases) && !AsksForDefault(routes);
            && (r in t.routers <==> taken) && (!taken ==> t == s) && (ok <==> taken && DistinctPrefixes(routes))
            && (taken ==>
                  && t.routers - {r} == s.routers
                  && t.routers[r].gatewayPort == (if gw == None then None else Some(port.name)))
            && (ok && gw == None ==> Pairs(t.routers[r].routes) == Wanted(routes))
            && (ok && gw.Some? ==>
                  && gw.value.subnet in s.subnets && s.subnets[gw.value.subnet].gateway.Some?
                  && Pairs(t.routers[r].routes) ==
                     {Route(if s.subnets[gw.value.subnet].v6 then "::/0" else "0.0.0.0/0",
                            s.subnets[gw.value.subnet].gateway.value)} + Wanted(routes))
  {
    hide Refers, GatewayFits, RoutesAdded, Pairs, Wanted, RouterPortName, RouterAdded, DistinctPrefixes, AsksForDefault;
    hide HasDefault;
    DefaultAsked(routes);
    if gw == None {
      PlainRouterIs(s, r, port, l, routes, leases);
    } else {
      GatewayRouterIs(s, r, gw.value, port, l, routes, leases);
    }
  }

  // ---------------------------------------------------------------------------------------------
  // Calls made of two
  // ---------------------------------------------------------------------------------------------

  /** Deleting an interface by subnet and port is deleting it by port, when the port is on the network of the
      subnet, and else refused. */
  lemma BothIsByPort(s: Db, r: LrId, d: SubnetId, ref: PortRef, row: LspRow, order: seq<LrpRow>)
    requires Refers(s) && Lists(s, r, order) && LspAt(s, ref) == Some(row) && row in s.lsps
    ensures DetachedByBoth(s, r, d, ref, order) ==
            if SubnetIsOn(s, d, s.lsps[row].ls) then DetachedByPort(s, r, ref, order) else (s, false)
  {
    hide DetachedByPort, LspAt, Lists;
  }

  /** A gateway fits as before where only routers have changed. */
  lemma SameFits(s: Db, t: Db, gw: Gateway, leases: Leases)
    requires Unique(s) && Refers(s) && t == s.(routers := t.routers) && s.routers.Keys <= t.routers.Keys
    ensures Refers(t) && (GatewayFits(t, gw, leases) <==> GatewayFits(s, gw, leases))
  {
    assert forall d, ls :: SubnetIsOn(t, d, ls) <==> SubnetIsOn(s, d, ls);
    SubnetOnIs(s, gw.ls);
    SubnetOnIs(t, gw.ls);
    hide SubnetOn;
    assert SubnetOn(t, gw.ls) == Some(gw.subnet) <==> SubnetOn(s, gw.ls) == Some(gw.subnet);
    assert forall row :: HasIp(t, row, gw.ls, gw.ip, leases) <==> HasIp(s, row, gw.ls, gw.ip, leases);
  }

  /** An update of a router changes its routes first and then gives it the gateway.  A gateway that does not
      fit, or that comes with a default route, is refused before anything is written; where the routes fail,
      or the router has a gateway, the routes stay as far as they were changed. */
  lemma RoutesThenGateway(s: Db, r: LrId, gw: Gateway, port: NewPort, l: LrpRow, change: Option<RouteChange>,
                          leases: Leases)
    requires Unique(s) && Refers(s) && (change.Some? ==> InAdded(change.value))
    ensures var (t, ok) := RouterUpdated(s, r, Some(gw), port, l, change, leases);
            var (routed, went) := RouterUpdated(s, r, None, port, l, change, leases);
            if !GatewayFits(s, gw, leases) || r !in s.routers ||
               (change.Some? && AsksForDefault(change.value.requested))
            then t == s && !ok
            else if !went || s.routers[r].gatewayPort.Some? then t == routed && !ok
            else Refers(routed) && (t, ok) == RouterUpdated(routed, r, Some(gw), port, l, None, leases)
  {
    if change.Some? {
      DefaultAsked(change.value.requested);
    }
    if r in s.routers {
      var routed := RouterUpdated(s, r, None, port, l, change, leases).0;
      hide Reconciled, AsksForDefault, HasDefault;
      SameFits(s, routed, gw, leases);
      assert routed.routers[r := routed.routers[r]] == routed.routers;
      hide GatewayFits, GatewayAdded, RoutesChanged;
    }
  }
}
