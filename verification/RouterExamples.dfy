/** Short runs from an empty database, with the tables after each call: where a law of the router calls
    does not hold, one of them shows it. */
module RouterExamples {
  import opened Text
  import opened Routes
  import opened RouterTables
  import opened Routers
  import opened RouterPairing
  import opened RouterRuns
  import opened RouterRoundTrips
  import opened Reservations

  // ---------------------------------------------------------------------------------------------
  // A network with an IPv6 subnet
  // ---------------------------------------------------------------------------------------------

  const NETWORK: Op := AddNetwork(0, None)
  const SUBNET: Op := AddSubnet(0, 0, true, Some(1))

  const WITH_NETWORK: Db := Db(map[0 := []], map[], map[], map[], map[])
  const WITH_SUBNET: Db := Db(map[0 := []], map[], map[], map[], map[0 := Subnet(0, true, Some(1), None)])

  lemma NetworkMade()
    ensures Kept(EMPTY) && Refers(EMPTY) && Legal(EMPTY, NETWORK) && Step(EMPTY, NETWORK).0 == WITH_NETWORK
    ensures Kept(WITH_NETWORK) && Refers(WITH_NETWORK)
  {
    EmptyIsKept();
    hide Kept;
    StepKept(EMPTY, NETWORK);
  }

  lemma SubnetMade()
    ensures Kept(WITH_NETWORK) && Refers(WITH_NETWORK) && Legal(WITH_NETWORK, SUBNET)
    ensures Step(WITH_NETWORK, SUBNET).0 == WITH_SUBNET && Kept(WITH_SUBNET) && Refers(WITH_SUBNET)
  {
    NetworkMade();
    hide Kept;
    StepKept(WITH_NETWORK, SUBNET);
    assert forall d :: !SubnetIsOn(WITH_NETWORK, d, 0);
  }

  lemma SubnetFound(s: Db)
    requires s.subnets.Keys == {0} && s.subnets[0].ls == 0
    ensures SubnetOn(s, 0) == Some(0)
  {
    assert SubnetIsOn(s, 0, 0);
  }

  // ---------------------------------------------------------------------------------------------
  // A router with an external gateway
  // ---------------------------------------------------------------------------------------------

  const GATEWAY_ROUTER: Op := AddRouter(0, Some(Gateway(0, 0, 2)), NewPort(0, "a"), 0, [], map[])
  const GATEWAY_DETACHED: Op := DetachSubnet(0, 0)

  const WITH_GATEWAY: Db :=
    Db(map[0 := [2]], map[0 := Lsp("a", 0, RouterPort, Some("lrpa"), GatewayOwner, RouterAddress)],
       map[0 := Lrp("lrpa", 0, 2)],
       map[0 := Lr(Some("a"), map[DEFAULT_ROUTE6 := 1])], map[0 := Subnet(0, true, Some(1), None)])

  const BARE: Db := Db(map[0 := []], map[], map[], map[0 := Lr(None, map[])], map[0 := Subnet(0, true, Some(1), None)])

  lemma OneRoute()
    ensures RoutesAdded(map[], [Route(DEFAULT_ROUTE6, 1)]) == (map[DEFAULT_ROUTE6 := 1], true)
    ensures forall m: map<Prefix, Hop> :: RoutesAdded(m, []) == (m, true)
  {
    assert [Route(DEFAULT_ROUTE6, 1)][1..] == [];
  }

  lemma GatewayPlacedOn()
    ensures GatewayAdded(BARE, 0, Gateway(0, 0, 2), NewPort(0, "a"), 0).0 == WITH_GATEWAY
  {
    OneRoute();
    assert RouterPortName("a") == "lrpa";
    hide RoutesAdded;
    assert [] + [2] == [2];
  }

  lemma GatewayFitsThere()
    ensures Refers(WITH_SUBNET) && GatewayFits(WITH_SUBNET, Gateway(0, 0, 2), map[])
  {
    SubnetMade();
    SubnetFound(WITH_SUBNET);
    hide SubnetOn;
  }

  lemma RouterAddedIs()
    requires Refers(WITH_SUBNET) && GatewayFits(WITH_SUBNET, Gateway(0, 0, 2), map[])
    ensures RouterAdded(WITH_SUBNET, 0, Some(Gateway(0, 0, 2)), NewPort(0, "a"), 0, [], map[]) == (WITH_GATEWAY, true)
  {
    GatewayPlacedOn();
    OneRoute();
    assert WithRouter(WITH_SUBNET, 0, Lr(None, map[])) == BARE;
    hide Refers, GatewayFits, GatewayAdded, RoutesAdded, WithRouter;
    assert WithRouter(WITH_GATEWAY, 0, WITH_GATEWAY.routers[0]) == WITH_GATEWAY by { SameRouter(WITH_GATEWAY, 0); }
  }

  lemma SameRouter(s: Db, r: LrId)
    requires r in s.routers
    ensures WithRouter(s, r, s.routers[r]) == s
  {
    assert s.routers[r := s.routers[r]] == s.routers;
  }

  lemma GatewayIsLegal()
    requires Refers(WITH_SUBNET)
    ensures Legal(WITH_SUBNET, GATEWAY_ROUTER)
    ensures Step(WITH_SUBNET, GATEWAY_ROUTER) ==
            RouterAdded(WITH_SUBNET, 0, Some(Gateway(0, 0, 2)), NewPort(0, "a"), 0, [], map[])
  {
    hide RouterAdded, Refers;
  }

  lemma GatewayMade()
    ensures Kept(WITH_SUBNET) && Refers(WITH_SUBNET) && Legal(WITH_SUBNET, GATEWAY_ROUTER)
    ensures Step(WITH_SUBNET, GATEWAY_ROUTER).0 == WITH_GATEWAY && Kept(WITH_GATEWAY) && Refers(WITH_GATEWAY)
  {
    hide Kept, Refers, GatewayFits, RouterAdded, Legal, Step, WITH_SUBNET, WITH_GATEWAY, GATEWAY_ROUTER;
    SubnetMade();
    GatewayFitsThere();
    RouterAddedIs();
    GatewayIsLegal();
    StepKept(WITH_SUBNET, GATEWAY_ROUTER);
  }

  // ---------------------------------------------------------------------------------------------
  // A reservation that is forgotten
  // ---------------------------------------------------------------------------------------------

  lemma RunOne(s: Db, op: Op, t: Db, ops: seq<Op>)
    requires Kept(s) && Refers(s) && Legal(s, op) && Step(s, op).0 == t && Kept(t) && Refers(t) && LegalRun(t, ops)
    ensures LegalRun(s, [op] + ops) && Run(s, [op] + ops) == Run(t, ops)
  {
    hide Kept, Refers, Legal, Step;
    assert ([op] + ops)[0] == op && ([op] + ops)[1..] == ops;
  }

  function ForgettingRun(): seq<Op> {
    [NETWORK] + ([SUBNET] + ([GATEWAY_ROUTER] + ([GATEWAY_DETACHED] + [])))
  }

  lemma DetachmentForgets()
    requires Refers(WITH_GATEWAY) && Sound(WITH_GATEWAY)
    ensures var t := DetachedBySubnet(WITH_GATEWAY, 0, 0).0; t.lrps == map[] && t.switches == map[0 := [2]]
  {
    var l := 0;
    assert Pair(WITH_GATEWAY, 0, 0) by { assert RouterPortName("a") == "lrpa"; }
    LegOnIsPair(WITH_GATEWAY, 0, 0, 0, 0);
    hide Sound, Refers, LegOn, LspOf, Pair, LegRows;
    assert LegPorts(WITH_GATEWAY, 0, 0) == {0};
  }

  /** A network with a subnet, a router with a gateway, and the interface deleted by subnet: the address of
      the gateway stays excluded though no gateway holds it. */
  lemma ReservationForgotten()
    ensures LegalFromEmpty(ForgettingRun())
    ensures var s := Reached(ForgettingRun()); 0 in s.switches && 2 in s.switches[0] && !Held(s, 0, 2)
  {
    NetworkMade();
    SubnetMade();
    GatewayMade();
    KeptRefers(WITH_GATEWAY);
    DetachmentForgets();
    hide Kept, Refers, Sound, Legal, NETWORK, SUBNET, GATEWAY_ROUTER, DetachedBySubnet;
    var t := DetachedBySubnet(WITH_GATEWAY, 0, 0).0;
    DetachmentIsLegal();
    StepKept(WITH_GATEWAY, GATEWAY_DETACHED);
    hide Step;
    RunOne(WITH_GATEWAY, GATEWAY_DETACHED, t, []);
    RunOne(WITH_SUBNET, GATEWAY_ROUTER, WITH_GATEWAY, [GATEWAY_DETACHED] + []);
    RunOne(WITH_NETWORK, SUBNET, WITH_SUBNET, [GATEWAY_ROUTER] + ([GATEWAY_DETACHED] + []));
    RunOne(EMPTY, NETWORK, WITH_NETWORK, [SUBNET] + ([GATEWAY_ROUTER] + ([GATEWAY_DETACHED] + [])));
    NoneHeld(t, 0, 2);
  }

  lemma DetachmentIsLegal()
    requires Refers(WITH_GATEWAY)
    ensures Legal(WITH_GATEWAY, GATEWAY_DETACHED)
    ensures Step(WITH_GATEWAY, GATEWAY_DETACHED).0 == DetachedBySubnet(WITH_GATEWAY, 0, 0).0
  {
    hide DetachedBySubnet, Refers;
  }

  lemma NoneHeld(s: Db, ls: LsId, ip: Ip)
    requires s.lrps == map[]
    ensures !Held(s, ls, ip)
  {
  }

  // ---------------------------------------------------------------------------------------------
  // A gateway at the address of an interface
  // ---------------------------------------------------------------------------------------------

  const BARE_ROUTER: Op := AddRouter(0, None, NewPort(0, "a"), 0, [], map[])
  const ATTACHMENT: Op := AttachSubnet(0, 0, NewPort(0, "a"), 0, [])

  /** The interface of the router 0 has the address 1, which the subnet names as its gateway. */
  const SERVED: Db :=
    Db(map[0 := []], map[0 := Lsp("a", 0, RouterPort, Some("lrpa"), InterfaceOwner, RouterAddress)],
       map[0 := Lrp("lrpa", 0, 1)],
       map[0 := Lr(None, map[])], map[0 := Subnet(0, true, Some(1), Some(0))])

  lemma BareRouterMade()
    ensures Kept(WITH_SUBNET) && Refers(WITH_SUBNET) && Legal(WITH_SUBNET, BARE_ROUTER)
    ensures Step(WITH_SUBNET, BARE_ROUTER).0 == BARE && Kept(BARE) && Refers(BARE)
  {
    hide Kept, Refers, RoutesAdded;
    SubnetMade();
    OneRoute();
    StepKept(WITH_SUBNET, BARE_ROUTER);
  }

  lemma AttachmentIs()
    ensures Lists(BARE, 0, []) && AttachedBySubnet(BARE, 0, 0, NewPort(0, "a"), 0, []) == (SERVED, true)
  {
    SubnetFound(BARE);
    assert RouterPortName("a") == "lrpa";
    hide SubnetOn;
    assert Scan(BARE, [], Some(0)) == Some(false);
    var t := AttachedBySubnet(BARE, 0, 0, NewPort(0, "a"), 0, []).0;
    assert t.lsps == SERVED.lsps && t.lrps == SERVED.lrps && t.subnets == SERVED.subnets;
  }

  lemma AttachmentMade()
    ensures Kept(BARE) && Refers(BARE) && Legal(BARE, ATTACHMENT)
    ensures Step(BARE, ATTACHMENT).0 == SERVED && Kept(SERVED) && Refers(SERVED)
  {
    hide Kept, Refers, AttachedBySubnet;
    BareRouterMade();
    AttachmentIs();
    StepKept(BARE, ATTACHMENT);
  }

  /** A router's own address is neither taken by its switch port nor excluded. */
  lemma InterfaceAddressIsFree()
    requires Refers(SERVED)
    ensures GatewayFits(SERVED, Gateway(0, 0, 1), map[])
  {
    SubnetFound(SERVED);
    hide SubnetOn;
  }

  lemma SecondGatewayMade()
    requires Refers(SERVED) && GatewayFits(SERVED, Gateway(0, 0, 1), map[])
    ensures RouterAdded(SERVED, 1, Some(Gateway(0, 0, 1)), NewPort(1, "b"), 1, [], map[]).1
  {
    OneRoute();
    hide GatewayFits, RoutesAdded;
    assert !HasDefault([]);
    var placed := GatewayAdded(WithRouter(SERVED, 1, Lr(None, map[])), 1, Gateway(0, 0, 1), NewPort(1, "b"), 1).0;
    assert RoutesAdded(placed.routers[1].routes, []).1;
  }

  const SECOND_GATEWAY: Op := UpdateRouter(0, Some(Gateway(0, 0, 1)), NewPort(1, "b"), 1, None, map[])

  /** The router has two legs with one address: its interface, and its external gateway. */
  const TWICE: Db :=
    Db(map[0 := [1]],
       map[0 := Lsp("a", 0, RouterPort, Some("lrpa"), InterfaceOwner, RouterAddress),
           1 := Lsp("b", 0, RouterPort, Some("lrpb"), GatewayOwner, RouterAddress)],
       map[0 := Lrp("lrpa", 0, 1), 1 := Lrp("lrpb", 0, 1)],
       map[0 := Lr(Some("b"), map[DEFAULT_ROUTE6 := 1])], map[0 := Subnet(0, true, Some(1), Some(0))])

  lemma SecondGatewayIs()
    ensures GatewayAdded(SERVED, 0, Gateway(0, 0, 1), NewPort(1, "b"), 1) == (TWICE, true)
  {
    OneRoute();
    assert RouterPortName("b") == "lrpb";
    hide RoutesAdded;
    assert [] + [1] == [1];
    var t := GatewayAdded(SERVED, 0, Gateway(0, 0, 1), NewPort(1, "b"), 1).0;
    assert t.lsps == TWICE.lsps && t.lrps == TWICE.lrps && t.routers == TWICE.routers && t.switches == TWICE.switches;
  }

  lemma SecondGatewayStep()
    requires Refers(SERVED) && GatewayFits(SERVED, Gateway(0, 0, 1), map[])
    ensures NewLsp(SERVED, NewPort(1, "b")) && Legal(SERVED, SECOND_GATEWAY) && Step(SERVED, SECOND_GATEWAY).0 == TWICE
  {
    SecondGatewayIs();
    SameRouter(SERVED, 0);
    hide Refers, GatewayFits, GatewayAdded, WithRouter;
    assert "b" != "a";
  }

  lemma SecondGatewayAdded()
    ensures Kept(SERVED) && Refers(SERVED) && Legal(SERVED, SECOND_GATEWAY)
    ensures Step(SERVED, SECOND_GATEWAY).0 == TWICE && Kept(TWICE) && Refers(TWICE)
  {
    hide Kept, Refers, Legal, Step, GatewayFits, SERVED, TWICE, SECOND_GATEWAY;
    AttachmentMade();
    InterfaceAddressIsFree();
    SecondGatewayStep();
    StepKept(SERVED, SECOND_GATEWAY);
  }

  // ---------------------------------------------------------------------------------------------
  // A second router at the address of an interface
  // ---------------------------------------------------------------------------------------------

  const SECOND_ROUTER: Op := AddRouter(1, Some(Gateway(0, 0, 1)), NewPort(1, "b"), 1, [], map[])
  const SECOND_DELETED: Op := DeleteRouter(1, [1])

  /** The tables with the second router. */
  ghost function Doubled(): Db {
    RouterAdded(SERVED, 1, Some(Gateway(0, 0, 1)), NewPort(1, "b"), 1, [], map[]).0
  }

  /** The tables before the second router, but for the subnet, which names none. */
  function Undoubled(): Db {
    SERVED.(subnets := map[0 := Subnet(0, true, Some(1), None)])
  }

  lemma ServedForgets()
    ensures Forgetting(SERVED, Gateway(0, 0, 1)) == Undoubled()
  {
    assert SERVED.subnets[0 := Subnet(0, true, Some(1), None)] == Undoubled().subnets;
  }

  /** Deleting the second router takes the interface of the first for its gateway port. */
  lemma SecondUndone()
    requires Sound(SERVED) && Refers(SERVED)
    requires NewLsp(SERVED, NewPort(1, "b")) && GatewayFits(SERVED, Gateway(0, 0, 1), map[])
    ensures RouterAdded(SERVED, 1, Some(Gateway(0, 0, 1)), NewPort(1, "b"), 1, [], map[]).1
    ensures Refers(Doubled()) && Lists(Doubled(), 1, [1]) && RouterDeleted(Doubled(), 1, [1]) == (Undoubled(), true)
  {
    SecondGatewayMade();
    ServedForgets();
    hide Refers, Sound, RouterAdded, RouterDeleted, Lists, GatewayFits, NewLsp, Forgetting, Undoubled;
    DeleteUndoesAddIff(SERVED, 1, Gateway(0, 0, 1), NewPort(1, "b"), 1, [], map[]);
  }

  lemma SecondIsLegal()
    requires Refers(SERVED) && NewLsp(SERVED, NewPort(1, "b"))
    ensures Legal(SERVED, SECOND_ROUTER) && Step(SERVED, SECOND_ROUTER).0 == Doubled()
  {
    hide RouterAdded, Refers, NewLsp;
  }

  lemma SecondDeletionIsLegal()
    requires Refers(Doubled()) && Lists(Doubled(), 1, [1])
    ensures Legal(Doubled(), SECOND_DELETED) && Step(Doubled(), SECOND_DELETED) == RouterDeleted(Doubled(), 1, [1])
  {
    hide RouterDeleted, Refers, Doubled, Lists;
  }

  lemma SecondRouterMade()
    ensures Kept(SERVED) && Refers(SERVED) && Legal(SERVED, SECOND_ROUTER)
    ensures Step(SERVED, SECOND_ROUTER).0 == Doubled() && Kept(Doubled()) && Refers(Doubled())
    ensures Legal(Doubled(), SECOND_DELETED) && Step(Doubled(), SECOND_DELETED).0 == Undoubled()
    ensures Kept(Undoubled()) && Refers(Undoubled())
  {
    hide Kept, Refers, Sound, Legal, Step, RouterAdded, RouterDeleted, Lists, GatewayFits, NewLsp;
    hide SERVED, SECOND_ROUTER, SECOND_DELETED, Doubled, Undoubled;
    AttachmentMade();
    KeptRefers(SERVED);
    InterfaceAddressIsFree();
    assert NewLsp(SERVED, NewPort(1, "b")) by { SecondGatewayStep(); }
    SecondUndone();
    SecondIsLegal();
    StepKept(SERVED, SECOND_ROUTER);
    SecondDeletionIsLegal();
    StepKept(Doubled(), SECOND_DELETED);
  }

  function DoublingRun(): seq<Op> {
    [NETWORK] + ([SUBNET] + ([BARE_ROUTER] + ([ATTACHMENT] + ([SECOND_ROUTER] + ([SECOND_DELETED] + [])))))
  }

  /** A network with a subnet, a router attached to it, and a second router with an external gateway at the
      subnet's own gateway address, which is deleted again: the first router and its interface are there as
      before, and the subnet names no gateway router any more. */
  lemma DeletionForgets()
    ensures LegalFromEmpty(DoublingRun())
    ensures var s := Reached(DoublingRun());
            && s.routers.Keys == {0} && s.lrps == map[0 := Lrp("lrpa", 0, 1)]
            && s.subnets == map[0 := Subnet(0, true, Some(1), None)]
  {
    NetworkMade();
    SubnetMade();
    BareRouterMade();
    AttachmentMade();
    SecondRouterMade();
    hide Kept, Refers, Legal, Step, Doubled;
    hide NETWORK, SUBNET, BARE_ROUTER, ATTACHMENT, SECOND_ROUTER, SECOND_DELETED;
    RunOne(Doubled(), SECOND_DELETED, Undoubled(), []);
    RunOne(SERVED, SECOND_ROUTER, Doubled(), [SECOND_DELETED] + []);
    RunOne(BARE, ATTACHMENT, SERVED, [SECOND_ROUTER] + ([SECOND_DELETED] + []));
    RunOne(WITH_SUBNET, BARE_ROUTER, BARE, [ATTACHMENT] + ([SECOND_ROUTER] + ([SECOND_DELETED] + [])));
    RunOne(WITH_NETWORK, SUBNET, WITH_SUBNET,
           [BARE_ROUTER] + ([ATTACHMENT] + ([SECOND_ROUTER] + ([SECOND_DELETED] + []))));
    RunOne(EMPTY, NETWORK, WITH_NETWORK,
           [SUBNET] + ([BARE_ROUTER] + ([ATTACHMENT] + ([SECOND_ROUTER] + ([SECOND_DELETED] + [])))));
  }
}
