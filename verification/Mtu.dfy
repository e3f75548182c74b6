/** The MTU of a network, of its subnet and of the router port its subnet is attached by, over the router
    tables: provider/neutron/neutron_api.py (`_update_networks_mtu`, `add_subnet`, `_get_ra_configs`) and
    `get_lrp_by_subnet` in provider/ovndb/ovn_north.py. */
module Mtu {
  import opened Text
  import opened RouterTables
  import opened Routers
  import opened RouterPairing
  import opened RouterRuns
  import opened RouterSteps

  type RouterCall = RouterPairing.Op

  /** The columns of a subnet: `mtu` is kept in the options of an IPv4 subnet, in the external ids of an
      IPv6 one; `moded` when it has an address mode. */
  datatype Options = Options(length: nat, moded: bool, mtu: Option<nat>)

  /** How a router port came about: its switch port has the device owner, and the name, to show it. */
  datatype Made = BySubnet | ByPort | AsGateway

  /** The columns of a router port: the length of its prefix, and the MTU of its router advertisements. */
  datatype Advert = Advert(length: nat, made: Made, mtu: Option<nat>)

  /** `networks` holds the MTU set on each network, `dhcpMtu` the configured one when it is enabled. */
  datatype State = State(db: Db, networks: map<LsId, Option<nat>>, options: map<SubnetId, Options>,
                         adverts: map<LrpRow, Advert>, dhcpMtu: Option<nat>)

  /** Every row has its columns. */
  ghost predicate Columns(s: State) {
    s.networks.Keys == s.db.switches.Keys && s.options.Keys == s.db.subnets.Keys && s.adverts.Keys == s.db.lrps.Keys
  }

  /** `cidr in lrp.networks` for a port of the router the subnet names, or of any router when it names none. */
  predicate Fits(s: State, l: LrpRow, d: SubnetId) {
    && d in s.db.subnets && d in s.options && l in s.db.lrps && l in s.adverts
    && (s.db.subnets[d].gatewayRouter.Some? ==> s.db.lrps[l].lr == s.db.subnets[d].gatewayRouter.value)
    && s.db.subnets[d].gateway == Some(s.db.lrps[l].ip) && s.options[d].length == s.adverts[l].length
  }

  /** The router port is a leg of the gateway router of the subnet, on its network, at its gateway address. */
  ghost predicate AtGateway(s: Db, l: LrpRow, row: LspRow, d: SubnetId) {
    && d in s.subnets && s.subnets[d].gatewayRouter.Some? && s.subnets[d].gateway.Some?
    && Leg(s, l, row, s.subnets[d].gatewayRouter.value, s.subnets[d].ls, s.subnets[d].gateway.value)
  }

  /** The interface the subnet is attached by. */
  ghost predicate Own(s: State, l: LrpRow, d: SubnetId) {
    l in s.adverts && s.adverts[l].made == BySubnet && exists row :: AtGateway(s.db, l, row, d)
  }

  /** The MTU that holds on a network: the one set, when it is positive. */
  function InForce(s: State, ls: LsId): Option<nat> {
    if ls in s.networks && s.networks[ls].Some? && s.networks[ls].value > 0 then s.networks[ls] else None
  }

  ghost predicate CoherentAt(s: State, d: SubnetId)
    requires d in s.db.subnets && d in s.options
  {
    var m := InForce(s, s.db.subnets[d].ls);
    m.Some? ==>
      && (!s.db.subnets[d].v6 || s.options[d].moded ==> s.options[d].mtu == m)
      && (s.db.subnets[d].v6 ==> forall l :: Own(s, l, d) ==> s.adverts[l].mtu == m)
  }

  /** Where a network has a positive MTU, its subnet carries it, and so do the router advertisements of the
      interface an IPv6 subnet is attached by. */
  ghost predicate Coherent(s: State) {
    forall d :: d in s.db.subnets && d in s.options ==> CoherentAt(s, d)
  }

  // ---------------------------------------------------------------------------------------------
  // Calls
  // ---------------------------------------------------------------------------------------------

  /** A call of the router model, with the MTU of a network it adds and the prefix length and address mode
      of a subnet it adds; or an update of a network's MTU, `text` when it is posted as a string. */
  datatype Op =
    | Routing(call: RouterCall, mtu: Option<nat>, length: nat, moded: bool)
    | UpdateNetwork(ls: LsId, newMtu: Option<nat>, text: bool, found: Option<LrpRow>)

  /** `found` is what `get_lrp_by_subnet` may return: the first port that fits, in the order listed. */
  ghost predicate MayFind(s: State, d: SubnetId, found: Option<LrpRow>) {
    match found
    case Some(l) => Fits(s, l, d)
    case None => forall l :: !Fits(s, l, d)
  }

  ghost predicate Permitted(s: State, op: Op) {
    match op
    case Routing(call, _, _, _) => RouterPairing.Legal(s.db, call)
    case UpdateNetwork(ls, _, _, found) => SubnetOn(s.db, ls).Some? ==> MayFind(s, SubnetOn(s.db, ls).value, found)
  }

  function MtuOf(s: State, ls: LsId): Option<nat> {
    if ls in s.networks then s.networks[ls] else None
  }

  /** `get_subnet_options` and `get_subnet_external_ids`: the MTU of the network, or the configured one. */
  function NewOptions(s: State, d: Subnet, length: nat, moded: bool): Options {
    var mtu := if MtuOf(s, d.ls).Some? then MtuOf(s, d.ls) else s.dhcpMtu;
    Options(length, moded, if !d.v6 || moded then mtu else None)
  }

  /** The subnet a router port is made for. */
  ghost function AskedFor(s: State, call: RouterCall): Option<SubnetId> {
    match call
    case AttachSubnet(_, d, _, _, _) => Some(d)
    case AttachPort(_, ref, _, _, _) =>
      var row := LspAt(s.db, ref);
      if row.Some? && row.value in s.db.lsps then SubnetOn(s.db, s.db.lsps[row.value].ls) else None
    case AddRouter(_, gw, _, _, _, _) => if gw.Some? then Some(gw.value.subnet) else None
    case UpdateRouter(_, gw, _, _, _, _) => if gw.Some? then Some(gw.value.subnet) else None
    case _ => None
  }

  function MadeBy(call: RouterCall): Made {
    if call.AttachSubnet? then BySubnet else if call.AttachPort? then ByPort else AsGateway
  }

  /** `_get_ra_configs` for an interface; the port of an external gateway makes no advertisements. */
  ghost function NewAdvert(s: State, call: RouterCall): Advert {
    var d := AskedFor(s, call);
    if d == None || d.value !in s.db.subnets || d.value !in s.options then Advert(0, MadeBy(call), None)
    else Advert(s.options[d.value].length, MadeBy(call),
                if MadeBy(call) != AsGateway && s.db.subnets[d.value].v6 then MtuOf(s, s.db.subnets[d.value].ls)
                else None)
  }

  /** Rows that stay keep their columns; the call fills in those of the rows it makes. */
  ghost function Routed(s: State, call: RouterCall, mtu: Option<nat>, length: nat, moded: bool): State
    requires RouterPairing.Legal(s.db, call) && Refers(s.db)
  {
    var t := RouterPairing.Step(s.db, call).0;
    State(t, map ls | ls in t.switches :: if ls in s.networks then s.networks[ls] else mtu,
          map d | d in t.subnets :: if d in s.options then s.options[d] else NewOptions(s, t.subnets[d], length, moded),
          map l | l in t.lrps :: if l in s.adverts then s.adverts[l] else NewAdvert(s, call), s.dhcpMtu)
  }

  /** Whether `_update_networks_mtu` writes: not when the MTU is 0, nor when the subnet carries the very
      same string. */
  predicate Writes(s: State, d: SubnetId, mtu: nat, text: bool)
    requires d in s.options
  {
    (mtu > 0 || text) && !(text && s.options[d].mtu == Some(mtu))
  }

  /** `_update_networks_mtu` */
  function SubnetMtuUpdated(s: State, d: SubnetId, mtu: nat, found: Option<LrpRow>): State
    requires d in s.options && d in s.db.subnets
  {
    var updated := s.(options := s.options[d := s.options[d].(mtu := Some(mtu))]);
    if s.db.subnets[d].v6 && found.Some? && found.value in s.adverts
    then updated.(adverts := s.adverts[found.value := s.adverts[found.value].(mtu := Some(mtu))])
    else updated
  }

  /** `update_network` */
  ghost function NetworkUpdated(s: State, ls: LsId, mtu: Option<nat>, text: bool, found: Option<LrpRow>): State
    requires Columns(s)
  {
    if ls !in s.networks || mtu == None then s
    else
      var updated := s.(networks := s.networks[ls := mtu]);
      var d := SubnetOn(s.db, ls);
      if d.Some? && Writes(s, d.value, mtu.value, text) then SubnetMtuUpdated(updated, d.value, mtu.value, found)
      else updated
  }

  ghost function After(s: State, op: Op): State
    requires Permitted(s, op) && Refers(s.db) && Columns(s)
  {
    match op
    case Routing(call, mtu, length, moded) => Routed(s, call, mtu, length, moded)
    case UpdateNetwork(ls, mtu, text, found) => NetworkUpdated(s, ls, mtu, text, found)
  }

  /** An interface has the prefix of the subnet it was made for. */
  ghost predicate Sized(s: State) {
    forall l, d :: Own(s, l, d) && d in s.options ==> s.adverts[l].length == s.options[d].length
  }

  /** What every call keeps, whatever becomes of the MTUs. */
  ghost predicate Shaped(s: State) {
    RouterPairing.Kept(s.db) && Refers(s.db) && Columns(s) && Sized(s)
  }

  ghost predicate Kept(s: State) {
    Shaped(s) && Coherent(s)
  }

  // ---------------------------------------------------------------------------------------------
  // Calls of the router model
  // ---------------------------------------------------------------------------------------------

  lemma RoutedAdverts(s: State, call: RouterCall, mtu: Option<nat>, length: nat, moded: bool, l: LrpRow)
    requires RouterPairing.Legal(s.db, call) && Refers(s.db)
    ensures var t := Routed(s, call, mtu, length, moded);
            && t.db == RouterPairing.Step(s.db, call).0 && NewAdvert(s, call).made == MadeBy(call)
            && (l in t.adverts ==> t.adverts[l] == if l in s.adverts then s.adverts[l] else NewAdvert(s, call))
  {
    hide RouterPairing.Step, RouterPairing.Legal, AskedFor;
  }

  /** The interface of a subnet after a call was its interface before, or the call has just made it. */
  lemma OwnFrom(s: State, call: RouterCall, mtu: Option<nat>, length: nat, moded: bool, l: LrpRow, d: SubnetId)
    requires RouterPairing.Kept(s.db) && Refers(s.db) && Columns(s) && RouterPairing.Legal(s.db, call)
    requires d in s.db.subnets
    ensures var t := Routed(s, call, mtu, length, moded);
            Own(t, l, d) ==>
              if l in s.adverts then Own(s, l, d) && t.adverts[l] == s.adverts[l]
              else call.AttachSubnet? && call.d == d && t.adverts[l] == NewAdvert(s, call)
  {
    hide RouterPairing.Step, RouterPairing.Kept, RouterPairing.Legal, Refers, NewAdvert, AtGateway, Routed;
    var t := Routed(s, call, mtu, length, moded);
    RoutedAdverts(s, call, mtu, length, moded, l);
    if Own(t, l, d) {
      var row :| AtGateway(t.db, l, row, d);
      AtGatewayFrom(s.db, call, l, row, d);
    }
  }

  lemma AtGatewayFrom(s: Db, call: RouterCall, l: LrpRow, row: LspRow, d: SubnetId)
    requires RouterPairing.Kept(s) && Refers(s) && RouterPairing.Legal(s, call) && d in s.subnets
    requires AtGateway(RouterPairing.Step(s, call).0, l, row, d)
    ensures l in s.lrps ==> AtGateway(s, l, row, d)
    ensures l !in s.lrps && call.AttachSubnet? ==> call.d == d
  {
    var t := RouterPairing.Step(s, call).0;
    KeptRefers(s);
    SoundUnique(s);
    hide RouterPairing.Step, RouterPairing.Kept, RouterPairing.Legal, Refers, Sound, Unique, NewLeg;
    StepLegs(s, call);
    StepSubnets(s, call);
    assert SubnetFrom(s, call, t, d);
    var r, ls, ip := t.subnets[d].gatewayRouter.value, t.subnets[d].ls, t.subnets[d].gateway.value;
    assert Leg(t, l, row, r, ls, ip);
    if Leg(s, l, row, r, ls, ip) {
      if t.subnets[d] != s.subnets[d] {
        AttachedHadNoLeg(s, call, l, row, ip);
      }
    } else {
      NewLegIsNew(s, call, l, r, ls);
      if call.AttachSubnet? {
        OneSubnetOn(s, call, l, r, d);
      }
    }
  }

  lemma NewLegIsNew(s: Db, call: RouterCall, l: LrpRow, r: LrId, ls: LsId)
    requires RouterPairing.Legal(s, call) && NewLeg(s, call, l, r, ls)
    ensures l !in s.lrps
  {
    hide NewLsp, Lists;
  }

  lemma OneSubnetOn(s: Db, call: RouterCall, l: LrpRow, r: LrId, d: SubnetId)
    requires Unique(s) && d in s.subnets && call.AttachSubnet? && NewLeg(s, call, l, r, s.subnets[d].ls)
    ensures call.d == d
  {
  }

  /** A subnet that was just attached to a router had no leg of that router on its network. */
  lemma AttachedHadNoLeg(s: Db, call: RouterCall, l: LrpRow, row: LspRow, ip: Ip)
    requires Sound(s) && Refers(s) && RouterPairing.Legal(s, call) && call.AttachSubnet?
    requires RouterPairing.Step(s, call).0 != s
    ensures call.d in s.subnets && !Leg(s, l, row, call.r, s.subnets[call.d].ls, ip)
  {
    hide Sound, Refers, NewLsp, RouterPortName;
    NoLegBefore(s, call.r, call.d, call.order);
  }

  lemma RoutedColumns(s: State, call: RouterCall, mtu: Option<nat>, length: nat, moded: bool)
    requires Columns(s) && RouterPairing.Legal(s.db, call) && Refers(s.db)
    ensures var t := Routed(s, call, mtu, length, moded);
            && Columns(t) && t.db == RouterPairing.Step(s.db, call).0
            && (forall ls :: ls in s.networks && ls in t.networks ==> t.networks[ls] == s.networks[ls])
            && (forall d :: d in s.options && d in t.options ==> t.options[d] == s.options[d])
            && (forall d :: d in t.options && d !in s.options ==>
                t.options[d] == NewOptions(s, t.db.subnets[d], length, moded))
  {
    hide RouterPairing.Step, RouterPairing.Legal, NewOptions, NewAdvert;
  }

  lemma NetworkOfSubnet(s: Db, d: SubnetId)
    requires Refers(s) && d in s.subnets
    ensures s.subnets[d].ls in s.switches
  {
  }

  lemma OwnIsThere(s: State)
    ensures forall l, d :: Own(s, l, d) ==> l in s.adverts && d in s.db.subnets
  {
  }

  /** A subnet coheres that did before, when what changed of its interfaces carries the MTU in force. */
  lemma CoheresFrom(s: State, t: State, d: SubnetId)
    requires d in s.db.subnets && d in s.options && d in t.db.subnets && d in t.options && CoherentAt(s, d)
    requires t.options[d] == s.options[d] && t.db.subnets[d].v6 == s.db.subnets[d].v6
    requires InForce(t, t.db.subnets[d].ls) == InForce(s, s.db.subnets[d].ls)
    requires forall l :: Own(t, l, d) ==>
               || (Own(s, l, d) && l in s.adverts && t.adverts[l] == s.adverts[l])
               || (InForce(t, t.db.subnets[d].ls).Some? && t.db.subnets[d].v6 ==>
                   t.adverts[l].mtu == InForce(t, t.db.subnets[d].ls))
    ensures CoherentAt(t, d)
  {
    hide InForce, AtGateway;
  }

  lemma AdvertInForce(s: State, call: RouterCall, d: SubnetId)
    requires call.AttachSubnet? && call.d == d && d in s.db.subnets && d in s.options && s.db.subnets[d].v6
    ensures InForce(s, s.db.subnets[d].ls).Some? ==> NewAdvert(s, call).mtu == InForce(s, s.db.subnets[d].ls)
  {
  }

  /** A subnet that was there has the MTU of its network after a call, and so has its interface. */
  lemma OldSubnetCoheres(s: State, call: RouterCall, mtu: Option<nat>, length: nat, moded: bool, d: SubnetId)
    requires Kept(s) && RouterPairing.Legal(s.db, call) && d in s.db.subnets
    requires var t := Routed(s, call, mtu, length, moded); Columns(t) && Refers(t.db) && d in t.db.subnets
    ensures CoherentAt(Routed(s, call, mtu, length, moded), d)
  {
    hide RouterPairing.Step, RouterPairing.Kept, RouterPairing.Legal, Refers, Own, NewAdvert, Routed, InForce;
    hide CoherentAt;
    var t := Routed(s, call, mtu, length, moded);
    RoutedColumns(s, call, mtu, length, moded);
    StepSubnets(s.db, call);
    assert SubnetFrom(s.db, call, t.db, d);
    SameInForce(s, t, d);
    OwnIsThere(t);
    forall l | Own(t, l, d)
      ensures || (Own(s, l, d) && l in s.adverts && t.adverts[l] == s.adverts[l])
              || (InForce(t, t.db.subnets[d].ls).Some? && t.db.subnets[d].v6 ==>
                  t.adverts[l].mtu == InForce(t, t.db.subnets[d].ls))
    {
      OwnFrom(s, call, mtu, length, moded, l, d);
      if l !in s.adverts && s.db.subnets[d].v6 {
        AdvertInForce(s, call, d);
      }
    }
    assert CoherentAt(s, d);
    CoheresFrom(s, t, d);
  }

  lemma SameInForce(s: State, t: State, d: SubnetId)
    requires Columns(s) && Columns(t) && Refers(s.db) && Refers(t.db) && d in s.db.subnets && d in t.db.subnets
    requires t.db.subnets[d].ls == s.db.subnets[d].ls
    requires forall ls :: ls in s.networks && ls in t.networks ==> t.networks[ls] == s.networks[ls]
    ensures InForce(t, t.db.subnets[d].ls) == InForce(s, s.db.subnets[d].ls)
  {
    NetworkOfSubnet(s.db, d);
    NetworkOfSubnet(t.db, d);
  }

  /** A subnet just added takes the MTU of its network, and is on no router yet. */
  lemma NewSubnetCoheres(s: State, call: RouterCall, mtu: Option<nat>, length: nat, moded: bool, d: SubnetId)
    requires Kept(s) && RouterPairing.Legal(s.db, call) && d !in s.db.subnets
    requires var t := Routed(s, call, mtu, length, moded); Columns(t) && Refers(t.db) && d in t.db.subnets
    ensures CoherentAt(Routed(s, call, mtu, length, moded), d)
  {
    hide RouterPairing.Step, RouterPairing.Kept, RouterPairing.Legal, Refers, NewAdvert, Routed, Coherent;
    var t := Routed(s, call, mtu, length, moded);
    RoutedColumns(s, call, mtu, length, moded);
    StepSubnets(s.db, call);
    NetworkOfSubnet(t.db, d);
    assert forall l :: !Own(t, l, d);
  }

  lemma AdvertLength(s: State, call: RouterCall, d: SubnetId)
    requires call.AttachSubnet? && call.d == d && d in s.db.subnets && d in s.options
    ensures NewAdvert(s, call).length == s.options[d].length
  {
  }

  /** A call makes interfaces of the length of their subnets, and changes none. */
  lemma RoutedSized(s: State, call: RouterCall, mtu: Option<nat>, length: nat, moded: bool)
    requires Shaped(s) && RouterPairing.Legal(s.db, call)
    ensures Sized(Routed(s, call, mtu, length, moded))
  {
    hide RouterPairing.Step, RouterPairing.Kept, RouterPairing.Legal, Refers, Own, NewAdvert, Routed;
    var t := Routed(s, call, mtu, length, moded);
    RoutedColumns(s, call, mtu, length, moded);
    StepSubnets(s.db, call);
    OwnIsThere(t);
    OwnIsThere(s);
    forall l, d | Own(t, l, d) && d in t.options
      ensures t.adverts[l].length == t.options[d].length
    {
      if d in s.db.subnets {
        OwnFrom(s, call, mtu, length, moded, l, d);
        if l !in s.adverts {
          AdvertLength(s, call, d);
        }
      } else {
        NewHasNone(t, l, d);
      }
    }
  }

  lemma NewHasNone(s: State, l: LrpRow, d: SubnetId)
    requires d in s.db.subnets && s.db.subnets[d].gatewayRouter == None
    ensures !Own(s, l, d)
  {
  }

  /** Whatever the call, network, subnet and interface keep one MTU. */
  lemma RoutedCoheres(s: State, call: RouterCall, mtu: Option<nat>, length: nat, moded: bool)
    requires Kept(s) && RouterPairing.Legal(s.db, call)
    ensures Kept(Routed(s, call, mtu, length, moded))
  {
    var t := Routed(s, call, mtu, length, moded);
    StepKept(s.db, call);
    RoutedColumns(s, call, mtu, length, moded);
    RoutedSized(s, call, mtu, length, moded);
    hide Sized;
    hide RouterPairing.Step, RouterPairing.Kept, RouterPairing.Legal, Refers, CoherentAt, Routed;
    forall d | d in t.db.subnets && d in t.options
      ensures CoherentAt(t, d)
    {
      if d in s.db.subnets {
        OldSubnetCoheres(s, call, mtu, length, moded, d);
      } else {
        NewSubnetCoheres(s, call, mtu, length, moded, d);
      }
    }
  }

  // ---------------------------------------------------------------------------------------------
  // Updates of an MTU
  // ---------------------------------------------------------------------------------------------

  /** The port found is not the interface of another IPv6 subnet whose network has another MTU. */
  ghost predicate SparesOthers(s: State, d: SubnetId, mtu: nat, l: LrpRow) {
    forall e ::
      e in s.db.subnets && e != d && s.db.subnets[e].v6 && InForce(s, s.db.subnets[e].ls).Some? && Own(s, l, e) ==>
      InForce(s, s.db.subnets[e].ls) == Some(mtu)
  }

  /** Every interface of the subnet is the port found, which is written, or carries the MTU already. */
  ghost predicate ReachesOwn(s: State, d: SubnetId, mtu: nat, written: Option<LrpRow>) {
    mtu > 0 ==> forall l :: Own(s, l, d) ==> s.adverts[l].mtu == Some(mtu) || written == Some(l)
  }

  /** The lookup by address hits the interface of an IPv6 subnet, and no other subnet's. */
  ghost predicate Hits(s: State, d: SubnetId, mtu: nat, text: bool, found: Option<LrpRow>)
    requires d in s.options && d in s.db.subnets
  {
    s.db.subnets[d].v6 ==>
      var written := if Writes(s, d, mtu, text) then found else None;
      ReachesOwn(s, d, mtu, written) && (written.Some? ==> SparesOthers(s, d, mtu, written.value))
  }

  /** An update that does anything hits. */
  ghost predicate Reaches(s: State, op: Op)
    requires Columns(s)
  {
    op.UpdateNetwork? && op.ls in s.networks && op.newMtu.Some? && SubnetOn(s.db, op.ls).Some? ==>
      var d := SubnetOn(s.db, op.ls).value;
      d in s.options ==> Hits(s, d, op.newMtu.value, op.text, op.found)
  }

  lemma UpdatedColumns(s: State, ls: LsId, mtu: Option<nat>, text: bool, found: Option<LrpRow>)
    requires Columns(s) && Refers(s.db)
    ensures var t := NetworkUpdated(s, ls, mtu, text, found);
            && t.db == s.db && Columns(t)
            && (forall l, d :: Own(t, l, d) <==> Own(s, l, d))
            && (Sized(s) ==> Sized(t))
  {
    SubnetIsThere(s.db, ls);
    hide SubnetOn, AtGateway, Refers;
    var t := NetworkUpdated(s, ls, mtu, text, found);
    assert forall l :: l in t.adverts <==> l in s.adverts;
    assert forall l :: l in s.adverts ==>
             t.adverts[l].made == s.adverts[l].made && t.adverts[l].length == s.adverts[l].length;
    assert forall d :: d in s.options ==> t.options[d].length == s.options[d].length;
  }

  /** The tables after an update that does something, `written` being the router port it writes to. */
  ghost predicate UpdatedTo(s: State, t: State, d: SubnetId, ls: LsId, mtu: nat, written: Option<LrpRow>) {
    && t.db == s.db && t.networks == s.networks[ls := Some(mtu)] && t.options.Keys == s.options.Keys
    && t.adverts.Keys == s.adverts.Keys
    && d in s.options && (forall e :: e in s.options && e != d ==> t.options[e] == s.options[e])
    && t.options[d].moded == s.options[d].moded && (mtu > 0 ==> t.options[d].mtu == Some(mtu))
    && (forall l :: l in s.adverts ==>
        t.adverts[l] == if written == Some(l) then s.adverts[l].(mtu := Some(mtu)) else s.adverts[l])
  }

  function Written(s: State, d: SubnetId, mtu: nat, text: bool, found: Option<LrpRow>): Option<LrpRow>
    requires d in s.options && d in s.db.subnets
  {
    if s.db.subnets[d].v6 && Writes(s, d, mtu, text) then found else None
  }

  lemma UpdateIs(s: State, ls: LsId, mtu: nat, text: bool, found: Option<LrpRow>, d: SubnetId)
    requires Columns(s) && ls in s.networks && SubnetOn(s.db, ls) == Some(d) && d in s.db.subnets
    requires found.Some? ==> found.value in s.adverts
    ensures UpdatedTo(s, NetworkUpdated(s, ls, Some(mtu), text, found), d, ls, mtu, Written(s, d, mtu, text, found))
  {
    hide SubnetOn;
  }

  lemma SameOwn(s: State, t: State, d: SubnetId, ls: LsId, mtu: nat, written: Option<LrpRow>)
    requires UpdatedTo(s, t, d, ls, mtu, written)
    ensures forall l, e :: Own(t, l, e) <==> Own(s, l, e)
  {
    hide AtGateway;
  }

  /** The subnet of the network updated coheres exactly when its interfaces are reached. */
  lemma UpdatedOwnIff(s: State, t: State, d: SubnetId, ls: LsId, mtu: nat, written: Option<LrpRow>)
    requires UpdatedTo(s, t, d, ls, mtu, written) && d in s.db.subnets && s.db.subnets[d].ls == ls && ls in s.networks
    ensures CoherentAt(t, d) <==> (s.db.subnets[d].v6 ==> ReachesOwn(s, d, mtu, written))
  {
    SameOwn(s, t, d, ls, mtu, written);
    OwnIsThere(s);
    hide Own;
    if mtu > 0 {
      assert InForce(t, ls) == Some(mtu);
      assert forall l :: l in s.adverts ==>
               (t.adverts[l].mtu == Some(mtu) <==> s.adverts[l].mtu == Some(mtu) || written == Some(l));
    } else {
      assert InForce(t, ls) == None;
    }
  }

  /** Another subnet coheres exactly when the port written to is spared. */
  lemma UpdatedOtherIff(s: State, t: State, d: SubnetId, ls: LsId, mtu: nat, written: Option<LrpRow>, e: SubnetId)
    requires UpdatedTo(s, t, d, ls, mtu, written) && e in s.db.subnets && e in s.options && e != d
    requires s.db.subnets[e].ls != ls
    requires CoherentAt(s, e)
    ensures CoherentAt(t, e) <==>
            (written.Some? && s.db.subnets[e].v6 && InForce(s, s.db.subnets[e].ls).Some? && Own(s, written.value, e) ==>
               InForce(s, s.db.subnets[e].ls) == Some(mtu))
  {
    SameOwn(s, t, d, ls, mtu, written);
    OwnIsThere(s);
    assert InForce(t, s.db.subnets[e].ls) == InForce(s, s.db.subnets[e].ls);
    hide Own, InForce;
  }

  /** All of them do exactly when the update reaches the one and spares the others. */
  lemma UpdatedIff(s: State, t: State, d: SubnetId, ls: LsId, mtu: nat, written: Option<LrpRow>)
    requires Coherent(s) && Columns(s) && Unique(s.db) && UpdatedTo(s, t, d, ls, mtu, written)
    requires d in s.db.subnets && s.db.subnets[d].ls == ls && ls in s.networks
    ensures Coherent(t) <==>
            && (s.db.subnets[d].v6 ==> ReachesOwn(s, d, mtu, written))
            && (written.Some? ==> SparesOthers(s, d, mtu, written.value))
  {
    UpdatedOwnIff(s, t, d, ls, mtu, written);
    assert forall e :: e in s.db.subnets && e != d ==> e in s.options && s.db.subnets[e].ls != ls;
    hide Unique, Own, ReachesOwn, InForce;
    forall e | e in s.db.subnets && e != d
      ensures CoherentAt(t, e) <==>
              (written.Some? && s.db.subnets[e].v6 && InForce(s, s.db.subnets[e].ls).Some? &&
               Own(s, written.value, e) ==>
                 InForce(s, s.db.subnets[e].ls) == Some(mtu))
    {
      UpdatedOtherIff(s, t, d, ls, mtu, written, e);
    }
    hide CoherentAt;
  }

  lemma FoundIsThere(s: State, d: SubnetId, found: Option<LrpRow>)
    requires MayFind(s, d, found)
    ensures found.Some? ==> found.value in s.adverts
  {
  }

  /** An update of a network with a subnet. */
  lemma SubnetUpdateIff(s: State, ls: LsId, mtu: nat, text: bool, found: Option<LrpRow>, d: SubnetId)
    requires Coherent(s) && Columns(s) && Unique(s.db) && ls in s.networks && SubnetOn(s.db, ls) == Some(d)
    requires d in s.db.subnets && d in s.options && s.db.subnets[d].ls == ls && MayFind(s, d, found)
    ensures Coherent(NetworkUpdated(s, ls, Some(mtu), text, found)) <==> Hits(s, d, mtu, text, found)
  {
    FoundIsThere(s, d, found);
    hide SubnetOn, Coherent, MayFind, NetworkUpdated, SparesOthers, ReachesOwn, Unique, UpdatedTo;
    UpdateIs(s, ls, mtu, text, found, d);
    UpdatedIff(s, NetworkUpdated(s, ls, Some(mtu), text, found), d, ls, mtu, Written(s, d, mtu, text, found));
  }

  /** Setting an MTU keeps network, subnet and interface at one MTU exactly when the update hits. */
  lemma UpdateCoheresIff(s: State, ls: LsId, mtu: Option<nat>, text: bool, found: Option<LrpRow>)
    requires Kept(s) && Permitted(s, UpdateNetwork(ls, mtu, text, found))
    ensures Kept(NetworkUpdated(s, ls, mtu, text, found)) <==> Reaches(s, UpdateNetwork(ls, mtu, text, found))
  {
    SubnetIsThere(s.db, ls);
    KeptRefers(s.db);
    SoundUnique(s.db);
    hide Own, RouterPairing.Kept, SubnetOn, Refers, Coherent, MayFind, NetworkUpdated, Hits, Unique;
    UpdatedColumns(s, ls, mtu, text, found);
    if ls in s.networks && mtu.Some? && SubnetOn(s.db, ls).Some? {
      SubnetUpdateIff(s, ls, mtu.value, text, found, SubnetOn(s.db, ls).value);
    } else {
      BareUpdate(s, ls, mtu, text, found);
    }
  }

  /** An update of a network without a subnet. */
  lemma BareUpdate(s: State, ls: LsId, mtu: Option<nat>, text: bool, found: Option<LrpRow>)
    requires Kept(s) && (ls !in s.networks || mtu == None || SubnetOn(s.db, ls) == None)
    ensures Coherent(NetworkUpdated(s, ls, mtu, text, found))
  {
    UpdatedColumns(s, ls, mtu, text, found);
    var t := NetworkUpdated(s, ls, mtu, text, found);
    forall d | d in t.db.subnets && d in t.options
      ensures CoherentAt(t, d)
    {
      assert CoherentAt(s, d) && SubnetIsOn(s.db, d, s.db.subnets[d].ls);
    }
  }

  // ---------------------------------------------------------------------------------------------
  // The lookup by address
  // ---------------------------------------------------------------------------------------------

  /** An interface has the gateway address and prefix length its subnet is looked up by. */
  lemma OwnFits(s: State, l: LrpRow, d: SubnetId)
    requires Shaped(s) && Own(s, l, d)
    ensures Fits(s, l, d)
  {
    hide RouterPairing.Kept, Refers;
    var row :| AtGateway(s.db, l, row, d);
  }

  /** A router port is the interface of one subnet at most. */
  lemma OneSubnetOwns(s: State, l: LrpRow, d: SubnetId, e: SubnetId)
    requires Shaped(s) && Own(s, l, d) && Own(s, l, e)
    ensures d == e
  {
    KeptRefers(s.db);
    SoundUnique(s.db);
    var row :| AtGateway(s.db, l, row, d);
    var other :| AtGateway(s.db, l, other, e);
    assert row == other by {
      hide Sound, Refers, RouterPairing.Kept, Columns, Sized;
      PairIsUnique(s.db, l, row, l, other);
    }
  }

  /** Whichever port of the gateway's address and length is written to, or none when the update writes
      nothing, the interface of an IPv6 subnet is reached and no other subnet's harmed. */
  ghost predicate Unmistaken(s: State, d: SubnetId, mtu: nat, text: bool)
    requires d in s.options && d in s.db.subnets
  {
    s.db.subnets[d].v6 ==>
      if Writes(s, d, mtu, text)
      then forall l :: Fits(s, l, d) ==> ReachesOwn(s, d, mtu, Some(l)) && SparesOthers(s, d, mtu, l)
      else ReachesOwn(s, d, mtu, None)
  }

  /** The lookup hits, whatever it finds, if and only if it cannot be mistaken. */
  lemma AlwaysHitsIff(s: State, d: SubnetId, mtu: nat, text: bool)
    requires Shaped(s) && d in s.options && d in s.db.subnets
    ensures (forall found :: MayFind(s, d, found) ==> Hits(s, d, mtu, text, found)) <==> Unmistaken(s, d, mtu, text)
  {
    hide Shaped, ReachesOwn, SparesOthers, Fits;
    var some := MayFindOne(s, d);
    forall l | Fits(s, l, d)
      ensures MayFind(s, d, Some(l))
    {
    }
    if s.db.subnets[d].v6 && Writes(s, d, mtu, text) && MayFind(s, d, None) {
      NothingToReach(s, d, mtu);
    }
  }

  lemma NothingToReach(s: State, d: SubnetId, mtu: nat)
    requires Shaped(s) && forall l :: !Fits(s, l, d)
    ensures ReachesOwn(s, d, mtu, None)
  {
    hide Shaped, Own, Fits;
    forall l | Own(s, l, d)
      ensures false
    {
      OwnFits(s, l, d);
    }
  }

  lemma MayFindOne(s: State, d: SubnetId) returns (found: Option<LrpRow>)
    ensures MayFind(s, d, found)
  {
    if l :| Fits(s, l, d) {
      return Some(l);
    } else {
      return None;
    }
  }

  lemma AloneOwns(s: State, d: SubnetId, l: LrpRow)
    requires Shaped(s) && Own(s, l, d) && forall k :: Fits(s, k, d) ==> k == l
    ensures forall k :: Own(s, k, d) ==> k == l
    ensures forall e :: Own(s, l, e) ==> e == d
  {
    hide Shaped, Own, Fits;
    forall k | Own(s, k, d)
      ensures k == l
    {
      OwnFits(s, k, d);
    }
    forall e | Own(s, l, e)
      ensures e == d
    {
      OneSubnetOwns(s, l, d, e);
    }
  }

  /** An interface that alone has its address and length is found, so an update that writes cannot miss. */
  lemma AloneIsReached(s: State, d: SubnetId, l: LrpRow, mtu: nat, text: bool)
    requires Shaped(s) && Own(s, l, d) && forall k :: Fits(s, k, d) ==> k == l
    ensures d in s.options && d in s.db.subnets && l in s.adverts
    ensures forall found :: MayFind(s, d, found) ==> found == Some(l)
    ensures Writes(s, d, mtu, text) || s.adverts[l].mtu == Some(mtu) ==> Unmistaken(s, d, mtu, text)
  {
    hide Shaped, Own, Fits, Writes, InForce;
    OwnFits(s, l, d);
    FitsIsThere(s, l, d);
    AloneOwns(s, d, l);
  }

  lemma FitsIsThere(s: State, l: LrpRow, d: SubnetId)
    requires Fits(s, l, d)
    ensures d in s.options && d in s.db.subnets && l in s.adverts
  {
  }

  /** The call with another result of its lookup. */
  function Finding(op: Op, found: Option<LrpRow>): Op {
    if op.UpdateNetwork? then op.(found := found) else op
  }

  /** The call is not an update whose lookup can be mistaken: this is about the tables before it alone. */
  ghost predicate Safe(s: State, op: Op)
    requires Columns(s)
  {
    op.UpdateNetwork? && op.ls in s.networks && op.newMtu.Some? && SubnetOn(s.db, op.ls).Some? ==>
      var d := SubnetOn(s.db, op.ls).value;
      d in s.options && d in s.db.subnets ==> Unmistaken(s, d, op.newMtu.value, op.text)
  }

  /** A call reaches whatever its lookup finds if and only if it is safe. */
  lemma AlwaysReachesIff(s: State, op: Op)
    requires Shaped(s) && Permitted(s, op)
    ensures (forall found :: Permitted(s, Finding(op, found)) ==> Reaches(s, Finding(op, found))) <==> Safe(s, op)
  {
    if op.UpdateNetwork? && op.ls in s.networks && op.newMtu.Some? && SubnetOn(s.db, op.ls).Some? {
      SubnetIsThere(s.db, op.ls);
      var d := SubnetOn(s.db, op.ls).value;
      AlwaysHitsIff(s, d, op.newMtu.value, op.text);
      hide SubnetOn, MayFind, Hits, Unmistaken, RouterPairing.Kept, Refers, Sized;
      assert forall found :: Permitted(s, Finding(op, found)) <==> MayFind(s, d, found);
      assert forall found :: Reaches(s, Finding(op, found)) <==> Hits(s, d, op.newMtu.value, op.text, found);
    } else {
      hide SubnetOn, MayFind, Hits, Unmistaken, RouterPairing.Kept, Refers, Sized;
      assert forall found :: Reaches(s, Finding(op, found));
    }
  }

  // ---------------------------------------------------------------------------------------------
  // Runs
  // ---------------------------------------------------------------------------------------------

  /** A call keeps network, subnet and interface at one MTU exactly when it is not an update that misses. */
  lemma StepCoheresIff(s: State, op: Op)
    requires Kept(s) && Permitted(s, op)
    ensures Kept(After(s, op)) <==> Reaches(s, op)
  {
    hide Kept, Routed, NetworkUpdated, RouterPairing.Legal;
    match op
    case Routing(call, mtu, length, moded) => RoutedCoheres(s, call, mtu, length, moded);
    case UpdateNetwork(ls, mtu, text, found) => UpdateCoheresIff(s, ls, mtu, text, found);
  }

  /** A call keeps them at one MTU, whatever its lookup finds, exactly when the lookup cannot be mistaken. */
  lemma StepAlwaysCoheresIff(s: State, op: Op)
    requires Kept(s) && Permitted(s, op)
    ensures (forall found :: Permitted(s, Finding(op, found)) ==> Kept(After(s, Finding(op, found)))) <==> Safe(s, op)
  {
    AlwaysReachesIff(s, op);
    hide Permitted, After, Reaches, Safe, RouterPairing.Kept, Refers, Columns, Sized, Coherent;
    forall found | Permitted(s, Finding(op, found))
      ensures Kept(After(s, Finding(op, found))) <==> Reaches(s, Finding(op, found))
    {
      StepCoheresIff(s, Finding(op, found));
    }
  }

  lemma StepShaped(s: State, op: Op)
    requires Shaped(s) && Permitted(s, op)
    ensures Shaped(After(s, op))
  {
    hide RouterPairing.Kept, Refers, Routed, NetworkUpdated, Columns, Sized, RouterPairing.Legal, MayFind;
    match op
    case Routing(call, mtu, length, moded) =>
      StepKept(s.db, call);
      RoutedColumns(s, call, mtu, length, moded);
      RoutedSized(s, call, mtu, length, moded);
    case UpdateNetwork(ls, mtu, text, found) => UpdatedColumns(s, ls, mtu, text, found);
  }

  ghost predicate LegalRun(s: State, ops: seq<Op>)
    requires Shaped(s)
    decreases |ops|
  {
    ops == [] || (Permitted(s, ops[0]) && (StepShaped(s, ops[0]); LegalRun(After(s, ops[0]), ops[1..])))
  }

  ghost function Run(s: State, ops: seq<Op>): State
    requires Shaped(s) && LegalRun(s, ops)
    decreases |ops|
  {
    if ops == [] then s else (StepShaped(s, ops[0]); Run(After(s, ops[0]), ops[1..]))
  }

  /** No update of the run misses. */
  ghost predicate ReachingRun(s: State, ops: seq<Op>)
    requires Shaped(s) && LegalRun(s, ops)
    decreases |ops|
  {
    ops == [] || (Reaches(s, ops[0]) && (StepShaped(s, ops[0]); ReachingRun(After(s, ops[0]), ops[1..])))
  }

  /** The MTUs cohere after every call of the run. */
  ghost predicate CoherentAlong(s: State, ops: seq<Op>)
    requires Shaped(s) && LegalRun(s, ops)
    decreases |ops|
  {
    Coherent(s) && (ops == [] || (StepShaped(s, ops[0]); CoherentAlong(After(s, ops[0]), ops[1..])))
  }

  /** All along a run the MTUs cohere if and only if no update of it misses. */
  lemma {:induction false} RunCoheresIff(s: State, ops: seq<Op>)
    requires Kept(s) && LegalRun(s, ops)
    ensures CoherentAlong(s, ops) <==> ReachingRun(s, ops)
    ensures ReachingRun(s, ops) ==> Coherent(Run(s, ops))
    decreases |ops|
  {
    if ops != [] {
      StepCoheresIff(s, ops[0]);
      StepShaped(s, ops[0]);
      hide After, Shaped, Coherent, Permitted, Reaches;
      var t := After(s, ops[0]);
      if Coherent(t) {
        RunCoheresIff(t, ops[1..]);
      } else {
        assert !CoherentAlong(t, ops[1..]) by { IncoherentNow(t, ops[1..]); }
      }
    }
  }

  lemma IncoherentNow(s: State, ops: seq<Op>)
    requires Shaped(s) && LegalRun(s, ops) && !Coherent(s)
    ensures !CoherentAlong(s, ops)
  {
    hide After, Shaped, Coherent;
  }

  // Runs whose lookups cannot be mistaken

  /** After every call of the run the MTUs cohere, whatever ports its lookups find. */
  ghost predicate AlwaysCoherent(s: State, ops: seq<Op>)
    requires Shaped(s)
    decreases |ops|
  {
    Coherent(s) &&
    (ops == [] ||
     forall found :: Permitted(s, Finding(ops[0], found)) ==>
       (StepShaped(s, Finding(ops[0], found)); AlwaysCoherent(After(s, Finding(ops[0], found)), ops[1..])))
  }

  /** Every call of the run that may happen is safe where it happens. */
  ghost predicate AlwaysSafe(s: State, ops: seq<Op>)
    requires Shaped(s)
    decreases |ops|
  {
    ops == [] ||
    forall found :: Permitted(s, Finding(ops[0], found)) ==>
      && Safe(s, ops[0])
      && (StepShaped(s, Finding(ops[0], found)); AlwaysSafe(After(s, Finding(ops[0], found)), ops[1..]))
  }

  lemma NotAlwaysNow(s: State, ops: seq<Op>)
    requires Shaped(s) && !Coherent(s)
    ensures !AlwaysCoherent(s, ops)
  {
    hide After, Shaped, Coherent, Permitted;
  }

  lemma FindingTwice(op: Op, found: Option<LrpRow>, other: Option<LrpRow>)
    ensures Finding(Finding(op, found), other) == Finding(op, other)
  {
  }

  lemma SafeWhatever(s: State, op: Op, found: Option<LrpRow>)
    requires Columns(s)
    ensures Safe(s, Finding(op, found)) <==> Safe(s, op)
  {
    hide SubnetOn, Unmistaken;
  }

  /** All along a run, whatever its lookups find, the MTUs cohere if and only if none can be mistaken. */
  lemma {:induction false} RunAlwaysCoheresIff(s: State, ops: seq<Op>)
    requires Kept(s)
    ensures AlwaysCoherent(s, ops) <==> AlwaysSafe(s, ops)
    decreases |ops|
  {
    hide After, Permitted, Safe, RouterPairing.Kept, Refers, Sized, Columns, Coherent, Finding;
    if ops != [] {
      if found :| Permitted(s, Finding(ops[0], found)) {
        FirstCall(s, ops[0], found);
        forall other | Permitted(s, Finding(ops[0], other))
          ensures Shaped(After(s, Finding(ops[0], other)))
          ensures Coherent(After(s, Finding(ops[0], other))) ==>
                    (AlwaysCoherent(After(s, Finding(ops[0], other)), ops[1..]) <==>
                     AlwaysSafe(After(s, Finding(ops[0], other)), ops[1..]))
          ensures !Coherent(After(s, Finding(ops[0], other))) ==>
                    !AlwaysCoherent(After(s, Finding(ops[0], other)), ops[1..])
        {
          StepShaped(s, Finding(ops[0], other));
          if Coherent(After(s, Finding(ops[0], other))) {
            RunAlwaysCoheresIff(After(s, Finding(ops[0], other)), ops[1..]);
          } else {
            NotAlwaysNow(After(s, Finding(ops[0], other)), ops[1..]);
          }
        }
      }
    }
  }

  lemma FirstCall(s: State, op: Op, found: Option<LrpRow>)
    requires Kept(s) && Permitted(s, Finding(op, found))
    ensures (forall other :: Permitted(s, Finding(op, other)) ==> Coherent(After(s, Finding(op, other)))) <==>
            Safe(s, op)
  {
    StepAlwaysCoheresIff(s, Finding(op, found));
    SafeWhatever(s, op, found);
    hide After, Permitted, Safe, RouterPairing.Kept, Refers, Sized, Columns, Coherent, Finding;
    forall other | Permitted(s, Finding(op, other))
      ensures Finding(Finding(op, found), other) == Finding(op, other)
      ensures Coherent(After(s, Finding(op, other))) <==> Kept(After(s, Finding(op, other)))
    {
      FindingTwice(op, found, other);
      StepShaped(s, Finding(op, other));
    }
    forall other
      ensures Finding(Finding(op, found), other) == Finding(op, other)
    {
      FindingTwice(op, found, other);
    }
  }

  /** No lookup of the run can be mistaken where it happens. */
  ghost predicate SafeRun(s: State, ops: seq<Op>)
    requires Shaped(s) && LegalRun(s, ops)
    decreases |ops|
  {
    ops == [] || (Safe(s, ops[0]) && (StepShaped(s, ops[0]); SafeRun(After(s, ops[0]), ops[1..])))
  }

  lemma SafeReaches(s: State, op: Op)
    requires Shaped(s) && Permitted(s, op) && Safe(s, op)
    ensures Reaches(s, op)
  {
    AlwaysReachesIff(s, op);
    hide Permitted, Reaches, Safe, Shaped;
    if op.UpdateNetwork? {
      assert Finding(op, op.found) == op;
    } else {
      assert Finding(op, None) == op;
    }
  }

  lemma {:induction false} SafeRunReaches(s: State, ops: seq<Op>)
    requires Shaped(s) && LegalRun(s, ops) && SafeRun(s, ops)
    ensures ReachingRun(s, ops)
    decreases |ops|
  {
    hide After, RouterPairing.Kept, Refers, Columns, Sized, Permitted, Reaches, Safe;
    if ops != [] {
      SafeReaches(s, ops[0]);
      StepShaped(s, ops[0]);
      SafeRunReaches(After(s, ops[0]), ops[1..]);
    }
  }

  function Start(dhcpMtu: Option<nat>): State {
    State(RouterRuns.EMPTY, map[], map[], map[], dhcpMtu)
  }

  lemma StartIsKept(dhcpMtu: Option<nat>)
    ensures Kept(Start(dhcpMtu))
  {
    EmptyIsKept();
  }

  /** A run from an empty database */
  ghost predicate LegalFromStart(dhcpMtu: Option<nat>, ops: seq<Op>) {
    StartIsKept(dhcpMtu);
    LegalRun(Start(dhcpMtu), ops)
  }

  ghost predicate SafeFromStart(dhcpMtu: Option<nat>, ops: seq<Op>)
    requires LegalFromStart(dhcpMtu, ops)
  {
    StartIsKept(dhcpMtu);
    SafeRun(Start(dhcpMtu), ops)
  }

  ghost function ReachedFrom(dhcpMtu: Option<nat>, ops: seq<Op>): (s: State)
    requires LegalFromStart(dhcpMtu, ops)
  {
    StartIsKept(dhcpMtu);
    Run(Start(dhcpMtu), ops)
  }

  lemma {:induction false} RunShaped(s: State, ops: seq<Op>)
    requires Shaped(s) && LegalRun(s, ops)
    ensures Shaped(Run(s, ops))
    decreases |ops|
  {
    hide After, RouterPairing.Kept, Refers, Columns, Sized, Permitted;
    if ops != [] {
      StepShaped(s, ops[0]);
      RunShaped(After(s, ops[0]), ops[1..]);
    }
  }

  /** Whatever was called before, where no lookup could be mistaken: a network with a positive MTU has it on
      its subnet, and an IPv6 subnet on the interface it is attached by. */
  lemma ReachableMtu(dhcpMtu: Option<nat>, ops: seq<Op>, d: SubnetId, m: nat)
    requires LegalFromStart(dhcpMtu, ops) && SafeFromStart(dhcpMtu, ops)
    requires var s := ReachedFrom(dhcpMtu, ops); d in s.db.subnets && InForce(s, s.db.subnets[d].ls) == Some(m)
    ensures var s := ReachedFrom(dhcpMtu, ops);
            && d in s.options && s.db.subnets[d].ls in s.networks && s.networks[s.db.subnets[d].ls] == Some(m)
            && (!s.db.subnets[d].v6 || s.options[d].moded ==> s.options[d].mtu == Some(m))
            && (s.db.subnets[d].v6 ==> forall l :: Own(s, l, d) ==> s.adverts[l].mtu == Some(m))
  {
    StartIsKept(dhcpMtu);
    hide Run, LegalRun, SafeRun, ReachingRun, RouterPairing.Kept, Own, Refers, Sized;
    SafeRunReaches(Start(dhcpMtu), ops);
    RunCoheresIff(Start(dhcpMtu), ops);
    RunShaped(Start(dhcpMtu), ops);
    assert CoherentAt(ReachedFrom(dhcpMtu, ops), d);
  }

  // ---------------------------------------------------------------------------------------------
  // The code
  // ---------------------------------------------------------------------------------------------

  class NetworkApi {
    var tables: State

    constructor (s: State)
      ensures tables == s
    {
      tables := s;
    }

    /** `get_dhcp(ls_id=...)` */
    method GetDhcpOfNetwork(ls: LsId) returns (d: Option<SubnetId>)
      requires Unique(tables.db)
      ensures d == SubnetOn(tables.db, ls)
    {
      var todo := tables.db.subnets.Keys;
      while todo != {}
        invariant todo <= tables.db.subnets.Keys
        invariant forall e :: SubnetIsOn(tables.db, e, ls) ==> e in todo
        decreases |todo|
      {
        var e :| e in todo;
        if tables.db.subnets[e].ls == ls {
          FoundSubnet(tables.db, e);
          return Some(e);
        }
        todo := todo - {e};
      }
      return None;
    }

    /** `get_lrp_by_subnet`: the first port of the gateway router, or of any router, with the address. */
    method GetLrpBySubnet(d: SubnetId) returns (found: Option<LrpRow>)
      requires d in tables.db.subnets
      ensures MayFind(tables, d, found)
    {
      var todo := tables.db.lrps.Keys;
      while todo != {}
        invariant todo <= tables.db.lrps.Keys
        invariant forall l :: Fits(tables, l, d) ==> l in todo
        decreases |todo|
      {
        var l :| l in todo;
        if Fits(tables, l, d) {
          return Some(l);
        }
        todo := todo - {l};
      }
      return None;
    }

    /** `_update_networks_mtu` */
    method UpdateNetworksMtu(ls: LsId, mtu: nat, text: bool) returns (ghost found: Option<LrpRow>)
      requires Unique(tables.db) && Refers(tables.db) && Columns(tables) && (mtu > 0 || text)
      modifies this
      ensures var d := SubnetOn(old(tables).db, ls);
              && (d.Some? ==> MayFind(old(tables), d.value, found))
              && tables == if d.Some? && Writes(old(tables), d.value, mtu, text)
                           then SubnetMtuUpdated(old(tables), d.value, mtu, found) else old(tables)
    {
      SubnetIsThere(tables.db, ls);
      hide SubnetOn, Unique, Refers;
      found := None;
      var d := GetDhcpOfNetwork(ls);
      if d == None {
        return;
      }
      var port := GetLrpBySubnet(d.value);
      found := port;
      var oldMtu := tables.options[d.value].mtu;
      if text && oldMtu == Some(mtu) {
        return;
      }
      tables := tables.(options := tables.options[d.value := tables.options[d.value].(mtu := Some(mtu))]);
      if tables.db.subnets[d.value].v6 && port.Some? {
        tables := tables.(adverts := tables.adverts[port.value := tables.adverts[port.value].(mtu := Some(mtu))]);
      }
    }

    /** `update_network` */
    method UpdateNetwork(ls: LsId, mtu: Option<nat>, text: bool) returns (ghost found: Option<LrpRow>)
      requires Unique(tables.db) && Refers(tables.db) && Columns(tables)
      modifies this
      ensures Permitted(old(tables), Op.UpdateNetwork(ls, mtu, text, found))
      ensures tables == After(old(tables), Op.UpdateNetwork(ls, mtu, text, found))
    {
      SubnetIsThere(tables.db, ls);
      ghost var start := tables;
      found := None;
      if SubnetOn(tables.db, ls).Some? {
        found := MayFindOne(tables, SubnetOn(tables.db, ls).value);
      }
      hide SubnetOn, Unique, Refers;
      if ls !in tables.networks || mtu == None {
        return;
      }
      tables := tables.(networks := tables.networks[ls := mtu]);
      if mtu.value > 0 || text {
        found := UpdateNetworksMtu(ls, mtu.value, text);
        assert forall d, l :: Fits(start, l, d) <==> Fits(start.(networks := start.networks[ls := mtu]), l, d);
      }
    }
  }
}
