/** A run from an empty database in which an update of an MTU misses the interface of a subnet. */
module MtuExamples {
  import opened Text
  import opened RouterTables
  import RouterPairing
  import RouterRuns
  import opened RouterExamples
  import opened Mtu

  function Bare(call: RouterCall): Mtu.Op {
    Routing(call, None, 0, false)
  }

  /** A network of MTU 1400 with an IPv6 subnet attached to a router, and an external gateway of that
      router at the address of the interface. */
  function SharingCalls(): seq<Mtu.Op> {
    [Routing(NETWORK, Some(1400), 0, false)] + ([Routing(SUBNET, None, 64, true)] + ([Bare(BARE_ROUTER)] +
     ([Bare(ATTACHMENT)] + ([Bare(SECOND_GATEWAY)] + []))))
  }

  const AFTER_NETWORK: State := State(WITH_NETWORK, map[0 := Some(1400)], map[], map[], None)
  const AFTER_SUBNET: State := State(WITH_SUBNET, map[0 := Some(1400)], map[0 := Options(64, true, Some(1400))], map[],
                                     None)
  const AFTER_ROUTER: State := AFTER_SUBNET.(db := BARE)
  const AFTER_ATTACHMENT: State := AFTER_SUBNET.(db := SERVED, adverts := map[0 := Advert(64, BySubnet, Some(1400))])
  const SHARING: State :=
    AFTER_SUBNET.(db := TWICE, adverts := map[0 := Advert(64, BySubnet, Some(1400)), 1 := Advert(64, AsGateway, None)])

  lemma CallMade(s: State, op: Mtu.Op, t: State, ops: seq<Mtu.Op>)
    requires Shaped(s) && Permitted(s, op) && After(s, op) == t && Shaped(t) && Mtu.LegalRun(t, ops)
    ensures Mtu.LegalRun(s, [op] + ops) && Mtu.Run(s, [op] + ops) == Mtu.Run(t, ops)
  {
    hide RouterPairing.Kept, Refers, Permitted, After, Columns;
    assert ([op] + ops)[0] == op && ([op] + ops)[1..] == ops;
  }

  lemma NetworkCall()
    requires Refers(RouterRuns.EMPTY) && RouterPairing.Legal(RouterRuns.EMPTY, NETWORK)
    requires RouterPairing.Step(RouterRuns.EMPTY, NETWORK).0 == WITH_NETWORK
    ensures Routed(Start(None), NETWORK, Some(1400), 0, false) == AFTER_NETWORK
  {
    hide RouterPairing.Legal, RouterPairing.Step, Refers, NewAdvert;
  }

  lemma SubnetCall()
    requires Refers(WITH_NETWORK) && RouterPairing.Legal(WITH_NETWORK, SUBNET)
    requires RouterPairing.Step(WITH_NETWORK, SUBNET).0 == WITH_SUBNET
    ensures Routed(AFTER_NETWORK, SUBNET, None, 64, true) == AFTER_SUBNET
  {
    hide RouterPairing.Legal, RouterPairing.Step, Refers, NewAdvert;
  }

  lemma BareRouterCall()
    requires Refers(WITH_SUBNET) && RouterPairing.Legal(WITH_SUBNET, BARE_ROUTER)
    requires RouterPairing.Step(WITH_SUBNET, BARE_ROUTER).0 == BARE
    ensures Routed(AFTER_SUBNET, BARE_ROUTER, None, 0, false) == AFTER_ROUTER
  {
    hide RouterPairing.Legal, RouterPairing.Step, Refers, NewAdvert;
  }

  lemma AttachmentCall()
    requires Refers(BARE) && RouterPairing.Legal(BARE, ATTACHMENT)
    requires RouterPairing.Step(BARE, ATTACHMENT).0 == SERVED
    ensures Routed(AFTER_ROUTER, ATTACHMENT, None, 0, false) == AFTER_ATTACHMENT
  {
    assert NewAdvert(AFTER_ROUTER, ATTACHMENT) == Advert(64, BySubnet, Some(1400));
    hide RouterPairing.Legal, RouterPairing.Step, Refers, NewAdvert;
  }

  lemma GatewayAdvert()
    ensures NewAdvert(AFTER_ATTACHMENT, SECOND_GATEWAY) == Advert(64, AsGateway, None)
  {
  }

  lemma GatewayCall()
    requires Refers(SERVED) && RouterPairing.Legal(SERVED, SECOND_GATEWAY)
    requires RouterPairing.Step(SERVED, SECOND_GATEWAY).0 == TWICE
    ensures Routed(AFTER_ATTACHMENT, SECOND_GATEWAY, None, 0, false) == SHARING
  {
    hide RouterPairing.Legal, RouterPairing.Step, Refers, NewAdvert, SECOND_GATEWAY;
    GatewayAdvert();
  }

  lemma Leads(s: State, op: Mtu.Op, t: State)
    requires Shaped(s) && Permitted(s, op) && After(s, op) == t
    ensures Shaped(t)
  {
    hide Shaped, Permitted, After;
    StepShaped(s, op);
  }

  /** The states the run goes through. */
  lemma CallsMade()
    ensures Shaped(Start(None)) && Shaped(AFTER_NETWORK) && Shaped(AFTER_SUBNET)
    ensures Shaped(AFTER_ROUTER) && Shaped(AFTER_ATTACHMENT) && Shaped(SHARING)
    ensures Permitted(Start(None), Routing(NETWORK, Some(1400), 0, false))
    ensures After(Start(None), Routing(NETWORK, Some(1400), 0, false)) == AFTER_NETWORK
    ensures Permitted(AFTER_NETWORK, Routing(SUBNET, None, 64, true))
    ensures After(AFTER_NETWORK, Routing(SUBNET, None, 64, true)) == AFTER_SUBNET
    ensures Permitted(AFTER_SUBNET, Bare(BARE_ROUTER)) && After(AFTER_SUBNET, Bare(BARE_ROUTER)) == AFTER_ROUTER
    ensures Permitted(AFTER_ROUTER, Bare(ATTACHMENT)) && After(AFTER_ROUTER, Bare(ATTACHMENT)) == AFTER_ATTACHMENT
    ensures Permitted(AFTER_ATTACHMENT, Bare(SECOND_GATEWAY))
    ensures After(AFTER_ATTACHMENT, Bare(SECOND_GATEWAY)) == SHARING
  {
    hide RouterPairing.Kept, Refers, RouterPairing.Legal, RouterPairing.Step, Routed, Sized, Columns;
    hide NETWORK, SUBNET, BARE_ROUTER, ATTACHMENT, SECOND_GATEWAY;
    StartIsKept(None);
    NetworkMade();
    NetworkCall();
    Leads(Start(None), Routing(NETWORK, Some(1400), 0, false), AFTER_NETWORK);
    SubnetMade();
    SubnetCall();
    Leads(AFTER_NETWORK, Routing(SUBNET, None, 64, true), AFTER_SUBNET);
    BareRouterMade();
    BareRouterCall();
    Leads(AFTER_SUBNET, Bare(BARE_ROUTER), AFTER_ROUTER);
    AttachmentMade();
    AttachmentCall();
    Leads(AFTER_ROUTER, Bare(ATTACHMENT), AFTER_ATTACHMENT);
    SecondGatewayAdded();
    GatewayCall();
    Leads(AFTER_ATTACHMENT, Bare(SECOND_GATEWAY), SHARING);
  }

  /** Where the run leads. */
  lemma SharingReached()
    ensures LegalFromStart(None, SharingCalls()) && ReachedFrom(None, SharingCalls()) == SHARING
  {
    CallsMade();
    hide RouterPairing.Kept, Refers, Sized, Columns, Permitted, After, Bare;
    hide AFTER_NETWORK, AFTER_SUBNET, AFTER_ROUTER, AFTER_ATTACHMENT, SHARING;
    CallMade(AFTER_ATTACHMENT, Bare(SECOND_GATEWAY), SHARING, []);
    CallMade(AFTER_ROUTER, Bare(ATTACHMENT), AFTER_ATTACHMENT, [Bare(SECOND_GATEWAY)] + []);
    CallMade(AFTER_SUBNET, Bare(BARE_ROUTER), AFTER_ROUTER, [Bare(ATTACHMENT)] + ([Bare(SECOND_GATEWAY)] + []));
    CallMade(AFTER_NETWORK, Routing(SUBNET, None, 64, true), AFTER_SUBNET,
             [Bare(BARE_ROUTER)] + ([Bare(ATTACHMENT)] + ([Bare(SECOND_GATEWAY)] + [])));
    CallMade(Start(None), Routing(NETWORK, Some(1400), 0, false), AFTER_NETWORK,
             [Routing(SUBNET, None, 64, true)] +
             ([Bare(BARE_ROUTER)] + ([Bare(ATTACHMENT)] + ([Bare(SECOND_GATEWAY)] + []))));
  }

  lemma BothFit()
    ensures Fits(SHARING, 1, 0) && Own(SHARING, 0, 0)
  {
    assert RouterPortName("a") == "lrpa";
    assert AtGateway(TWICE, 0, 0, 0);
  }

  lemma MissingUpdate()
    requires SubnetOn(TWICE, 0) == Some(0) && Refers(TWICE)
    ensures Columns(SHARING)
    ensures var t := NetworkUpdated(SHARING, 0, Some(9000), false, Some(1));
            InForce(t, 0) == Some(9000) && Own(t, 0, 0) && t.adverts[0].mtu == Some(1400)
  {
    BothFit();
    hide SubnetOn, Own, Refers;
    UpdatedColumns(SHARING, 0, Some(9000), false, Some(1));
  }

  /** The lookup by address may find the gateway in place of the interface; the new MTU then goes to the
      gateway, and the interface goes on advertising the old one. */
  lemma SharedAddressMisses()
    ensures LegalFromStart(None, SharingCalls())
    ensures var s := ReachedFrom(None, SharingCalls());
            var op := UpdateNetwork(0, Some(9000), false, Some(1));
            && RouterPairing.Kept(s.db) && Refers(s.db) && Columns(s) && Permitted(s, op)
            && InForce(After(s, op), 0) == Some(9000) && Own(After(s, op), 0, 0)
            && After(s, op).adverts[0].mtu == Some(1400)
  {
    hide RouterPairing.Kept, Refers, SubnetOn, LegalFromStart, ReachedFrom, SharingCalls, NetworkUpdated, Own, Fits;
    hide InForce;
    SharingReached();
    SecondGatewayAdded();
    SubnetFound(TWICE);
    BothFit();
    MissingUpdate();
  }

  lemma LoneInterface()
    ensures Own(AFTER_ATTACHMENT, 0, 0) && forall k :: Fits(AFTER_ATTACHMENT, k, 0) ==> k == 0
    ensures AFTER_ATTACHMENT.db == SERVED && 0 in AFTER_ATTACHMENT.options && Writes(AFTER_ATTACHMENT, 0, 9000, false)
  {
    assert RouterPortName("a") == "lrpa";
    assert AtGateway(SERVED, 0, 0, 0);
  }

  lemma UpdateIsSafe(s: State, ls: LsId, d: SubnetId, mtu: nat, found: Option<LrpRow>)
    requires Columns(s) && SubnetOn(s.db, ls) == Some(d)
    requires d in s.options && d in s.db.subnets && Unmistaken(s, d, mtu, false)
    ensures Safe(s, UpdateNetwork(ls, Some(mtu), false, found))
  {
    hide SubnetOn, Unmistaken;
  }

  /** Before the gateway was added the interface alone had the address, and the update could not miss. */
  lemma LoneInterfaceIsReached(found: Option<LrpRow>)
    ensures Shaped(AFTER_ATTACHMENT) && Own(AFTER_ATTACHMENT, 0, 0)
    ensures Safe(AFTER_ATTACHMENT, UpdateNetwork(0, Some(9000), false, found))
  {
    hide RouterPairing.Kept, Refers, SubnetOn, Sized, Columns, Unmistaken, Own, Fits, Permitted, After, Writes, Safe;
    hide AFTER_ATTACHMENT;
    CallsMade();
    LoneInterface();
    SubnetFound(SERVED);
    AloneIsReached(AFTER_ATTACHMENT, 0, 0, 9000, false);
    UpdateIsSafe(AFTER_ATTACHMENT, 0, 0, 9000, found);
  }
}
