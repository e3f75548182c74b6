/** What one call may change of the legs of routers and of the subnets, in terms of the tables before it. */
module RouterSteps {
  import opened Text
  import opened RouterTables
  import opened Routers
  import opened RouterPairing
  import opened RouterRuns

  /** The call may make the router port `l` a leg of the router `r` on the network `ls`. */
  ghost predicate NewLeg(s: Db, op: Op, l: LrpRow, r: LrId, ls: LsId) {
    match op
    case AddRouter(q, gw, _, k, _, _) => gw.Some? && l == k && r == q && ls == gw.value.ls
    case UpdateRouter(q, gw, _, k, _, _) => gw.Some? && l == k && r == q && ls == gw.value.ls
    case AttachSubnet(q, d, _, k, _) => l == k && r == q && d in s.subnets && ls == s.subnets[d].ls
    case AttachPort(q, ref, k, _, _) =>
      l == k && r == q && LspAt(s, ref).Some? && LspAt(s, ref).value in s.lsps && ls == s.lsps[LspAt(s, ref).value].ls
    case _ => false
  }

  /** Every leg was there before or is the call's own. */
  ghost predicate LegsFrom(s: Db, op: Op, t: Db) {
    forall l, row, r, ls, ip :: Leg(t, l, row, r, ls, ip) ==> Leg(s, l, row, r, ls, ip) || NewLeg(s, op, l, r, ls)
  }

  lemma FewerLegs(s: Db, op: Op, t: Db, gone: set<LrpRow>)
    requires LegsWithout(s, t, gone)
    ensures LegsFrom(s, op, t)
  {
    hide Leg, NewLeg;
  }

  lemma AlikeLegs(s: Db, op: Op, t: Db)
    requires SameLegs(s, t)
    ensures LegsFrom(s, op, t)
  {
    hide Leg, NewLeg;
  }

  lemma OneMore(s: Db, op: Op, t: Db, l: LrpRow, row: LspRow, r: LrId, ls: LsId, ip: Ip)
    requires OneMoreLeg(s, t, l, row, r, ls, ip) && NewLeg(s, op, l, r, ls)
    ensures LegsFrom(s, op, t)
  {
    hide Leg, NewLeg;
  }

  lemma GatewayMore(s: Db, op: Op, t: Db, gw: Option<Gateway>, r: LrId, port: NewPort, l: LrpRow)
    requires GatewayLeg(s, t, gw, r, port, l) && (gw.Some? ==> NewLeg(s, op, l, r, gw.value.ls))
    ensures LegsFrom(s, op, t)
  {
    hide SameLegs, OneMoreLeg, NewLeg, LegsFrom;
    if SameLegs(s, t) {
      AlikeLegs(s, op, t);
    } else {
      OneMore(s, op, t, l, port.row, r, gw.value.ls, gw.value.ip);
    }
  }

  lemma AttachmentLegs(s: Db, op: Op)
    requires Sound(s) && Refers(s) && Legal(s, op)
    requires (op.AddRouter? || op.UpdateRouter? || op.AttachSubnet? || op.AttachPort?)
    ensures LegsFrom(s, op, Step(s, op).0)
  {
    hide Sound, SameLegs, OneMoreLeg, NewLsp, Lists, LspAt, LegsFrom, Refers;
    hide RouterAdded, RouterUpdated, AttachedBySubnet, AttachedByPort;
    var t := Step(s, op).0;
    SameSelf(s);
    AlikeLegs(s, op, s);
    match op
    case AddRouter(r, gw, port, l, routes, leases) =>
      RouterAddedKeeps(s, r, gw, port, l, routes, leases);
      GatewayMore(s, op, t, gw, r, port, l);
    case UpdateRouter(r, gw, port, l, change, leases) =>
      RouterUpdatedKeeps(s, r, gw, port, l, change, leases);
      GatewayMore(s, op, t, gw, r, port, l);
    case AttachSubnet(r, d, port, l, order) =>
      AttachedBySubnetKeeps(s, r, d, port, l, order);
      if Step(s, op).1 {
        OneMore(s, op, t, l, port.row, r, s.subnets[d].ls, s.subnets[d].gateway.value);
      }
    case AttachPort(r, ref, l, order, leases) =>
      AttachedByPortKeeps(s, r, ref, l, order, leases);
      if Step(s, op).1 {
        var row := LspAt(s, ref).value;
        OneMore(s, op, t, l, row, r, s.lsps[row].ls, PortIp(s.lsps[row], row, leases).value);
      }
  }

  lemma RouterGoneLegs(s: Db, r: LrId)
    ensures SameLegs(s, s.(routers := s.routers - {r}))
  {
  }

  lemma DetachedByPortLegs(s: Db, op: Op, r: LrId, ref: PortRef, order: seq<LrpRow>)
    requires Sound(s) && Refers(s) && Lists(s, r, order)
    ensures LegsFrom(s, op, DetachedByPort(s, r, ref, order).0)
  {
    hide Sound, Refers, Lists, DetachedByPort, LegsFrom, LegsWithout, SameLegs, Pair;
    var l, row, d := DetachedByPortKeeps(s, r, ref, order);
    SameSelf(s);
    AlikeLegs(s, op, s);
    if DetachedByPort(s, r, ref, order).0 != s {
      FewerLegs(s, op, DetachedByPort(s, r, ref, order).0, {l});
    }
  }

  lemma FromThenSame(s: Db, op: Op, mid: Db, t: Db)
    requires LegsFrom(s, op, mid) && SameLegs(mid, t)
    ensures LegsFrom(s, op, t)
  {
    hide Leg, NewLeg;
  }

  lemma RouterDeletedLegs(s: Db, op: Op, r: LrId, order: seq<LrpRow>)
    requires Sound(s) && Refers(s) && Lists(s, r, order)
    ensures LegsFrom(s, op, RouterDeleted(s, r, order).0)
  {
    hide Sound, Refers, Lists, DetachedByPort, LegsFrom, SameLegs, HasNoPorts;
    SameSelf(s);
    AlikeLegs(s, op, s);
    RouterGoneLegs(s, r);
    FromThenSame(s, op, s, s.(routers := s.routers - {r}));
    if r in s.routers && s.routers[r].gatewayPort.Some? {
      var freed := DetachedByPort(s, r, ByName(s.routers[r].gatewayPort.value), order).0;
      DetachedByPortLegs(s, op, r, ByName(s.routers[r].gatewayPort.value), order);
      RouterGoneLegs(freed, r);
      FromThenSame(s, op, freed, freed.(routers := freed.routers - {r}));
    }
  }

  lemma DetachedBySubnetLegs(s: Db, op: Op, r: LrId, d: SubnetId)
    requires Sound(s) && Refers(s)
    ensures LegsFrom(s, op, DetachedBySubnet(s, r, d).0)
  {
    SameSelf(s);
    AlikeLegs(s, op, s);
    if r in s.routers && d in s.subnets {
      var gone := DetachedBySubnetKeeps(s, r, d);
      hide Sound, Refers, DetachedBySubnet, LegsFrom, LegsWithout;
      FewerLegs(s, op, DetachedBySubnet(s, r, d).0, gone);
    }
  }

  /** A call makes no leg but its own, on the network it names and for the router it names. */
  lemma StepLegs(s: Db, op: Op)
    requires Kept(s) && Refers(s) && Legal(s, op)
    ensures LegsFrom(s, op, Step(s, op).0)
  {
    KeptRefers(s);
    hide Kept, Sound, Refers, NewLsp, Lists, LspAt, LegsFrom, SameLegs;
    hide RouterDeleted, DetachedByPort, DetachedBySubnet, RouterAdded, RouterUpdated, AttachedBySubnet, AttachedByPort;
    hide NetworkAdded, NetworkDeleted, SubnetAdded, SubnetDeleted, PortAdded, PortUpdated, PortDeleted;
    if !IsRouterCall(op) {
      PlainCallsKeep(s, op);
      AlikeLegs(s, op, Step(s, op).0);
    } else {
      SameSelf(s);
      AlikeLegs(s, op, s);
      match op
      case AddRouter(_, _, _, _, _, _) => AttachmentLegs(s, op);
      case UpdateRouter(_, _, _, _, _, _) => AttachmentLegs(s, op);
      case AttachSubnet(_, _, _, _, _) => AttachmentLegs(s, op);
      case AttachPort(_, _, _, _, _) => AttachmentLegs(s, op);
      case DeleteRouter(r, order) => RouterDeletedLegs(s, op, r, order);
      case DetachPort(r, ref, order) => DetachedByPortLegs(s, op, r, ref, order);
      case DetachSubnet(r, d) => DetachedBySubnetLegs(s, op, r, d);
      case DetachBoth(r, d, ref, order) => DetachedByPortLegs(s, op, r, ref, order);
    }
  }

  // ---------------------------------------------------------------------------------------------
  // Subnets
  // ---------------------------------------------------------------------------------------------

  /** The subnet is as it was, but for the gateway router that the call attached it to or took from it. */
  ghost predicate SubnetFrom(s: Db, op: Op, t: Db, d: SubnetId)
    requires d in s.subnets && d in t.subnets
  {
    && t.subnets[d].(gatewayRouter := None) == s.subnets[d].(gatewayRouter := None)
    && (t.subnets[d].gatewayRouter.Some? ==>
          t.subnets[d] == s.subnets[d] ||
          (op.AttachSubnet? && op.d == d && t.subnets[d].gatewayRouter == Some(op.r) && t != s))
  }

  ghost predicate SubnetsFrom(s: Db, op: Op, t: Db) {
    forall d :: d in t.subnets ==>
      if d in s.subnets then SubnetFrom(s, op, t, d)
      else op.AddSubnet? && d == op.d && t.subnets[d].gatewayRouter == None && t.subnets[d].ls == op.ls &&
           op.ls in s.switches
  }

  lemma SubnetsAlike(s: Db, op: Op, t: Db)
    requires t.subnets == s.subnets
    ensures SubnetsFrom(s, op, t)
  {
  }

  lemma SubnetForgets(s: Db, op: Op, t: Db, d: SubnetId)
    requires d in s.subnets && t.subnets == s.subnets[d := s.subnets[d].(gatewayRouter := None)]
    ensures SubnetsFrom(s, op, t)
  {
  }

  lemma AttachmentSubnets(s: Db, op: Op)
    requires Sound(s) && Refers(s) && Legal(s, op)
    requires (op.AddRouter? || op.UpdateRouter? || op.AttachSubnet? || op.AttachPort?)
    ensures SubnetsFrom(s, op, Step(s, op).0)
  {
    hide Sound, SameLegs, OneMoreLeg, NewLsp, Lists, LspAt, Refers, GatewayLeg;
    hide RouterAdded, RouterUpdated, AttachedBySubnet, AttachedByPort;
    match op
    case AddRouter(r, gw, port, l, routes, leases) => RouterAddedKeeps(s, r, gw, port, l, routes, leases);
    case UpdateRouter(r, gw, port, l, change, leases) => RouterUpdatedKeeps(s, r, gw, port, l, change, leases);
    case AttachSubnet(r, d, port, l, order) => AttachedBySubnetKeeps(s, r, d, port, l, order);
    case AttachPort(r, ref, l, order, leases) => AttachedByPortKeeps(s, r, ref, l, order, leases);
  }

  lemma DetachedByPortSubnets(s: Db, op: Op, r: LrId, ref: PortRef, order: seq<LrpRow>)
    requires Sound(s) && Refers(s) && Lists(s, r, order)
    ensures SubnetsFrom(s, op, DetachedByPort(s, r, ref, order).0)
  {
    hide Sound, Refers, Lists, DetachedByPort, LegsWithout, SubnetsFrom, Pair;
    var l, row, d := DetachedByPortKeeps(s, r, ref, order);
    SubnetsAlike(s, op, s);
    var t := DetachedByPort(s, r, ref, order).0;
    if t.subnets == s.subnets {
      SubnetsAlike(s, op, t);
    } else {
      SubnetForgets(s, op, t, d);
    }
  }

  lemma DetachedBySubnetSubnets(s: Db, op: Op, r: LrId, d: SubnetId)
    requires Sound(s) && Refers(s)
    ensures SubnetsFrom(s, op, DetachedBySubnet(s, r, d).0)
  {
    SubnetsAlike(s, op, s);
    if r in s.routers && d in s.subnets {
      var gone := DetachedBySubnetKeeps(s, r, d);
      hide Sound, Refers, DetachedBySubnet, LegsWithout, LegsOf, SubnetsFrom;
      var t := DetachedBySubnet(s, r, d).0;
      if t.subnets == s.subnets {
        SubnetsAlike(s, op, t);
      } else {
        SubnetForgets(s, op, t, d);
      }
    }
  }

  lemma RouterDeletedSubnets(s: Db, op: Op, r: LrId, order: seq<LrpRow>)
    requires Sound(s) && Refers(s) && Lists(s, r, order) && op.DeleteRouter?
    ensures SubnetsFrom(s, op, RouterDeleted(s, r, order).0)
  {
    hide Sound, Refers, Lists, DetachedByPort, HasNoPorts;
    if r in s.routers && s.routers[r].gatewayPort.Some? {
      DetachedByPortSubnets(s, op, r, ByName(s.routers[r].gatewayPort.value), order);
    }
  }

  lemma PlainSubnets(s: Db, op: Op)
    requires Refers(s) && Legal(s, op) && !IsRouterCall(op)
    ensures SubnetsFrom(s, op, Step(s, op).0)
  {
    hide Refers, LspAt, NewLsp, OnlyLocalnet, UpdatedLsp, NewAddresses, SubnetOn;
  }

  /** No call changes a subnet but for its gateway router, and none gives it one but attaching it does. */
  lemma StepSubnets(s: Db, op: Op)
    requires Kept(s) && Refers(s) && Legal(s, op)
    ensures SubnetsFrom(s, op, Step(s, op).0)
  {
    KeptRefers(s);
    hide Kept, Sound, Refers, NewLsp, Lists, LspAt, SubnetsFrom;
    hide RouterDeleted, DetachedByPort, DetachedBySubnet, RouterAdded, RouterUpdated, AttachedBySubnet, AttachedByPort;
    hide NetworkAdded, NetworkDeleted, SubnetAdded, SubnetDeleted, PortAdded, PortUpdated, PortDeleted;
    if !IsRouterCall(op) {
      PlainSubnets(s, op);
    } else {
      SubnetsAlike(s, op, s);
      match op
      case AddRouter(_, _, _, _, _, _) => AttachmentSubnets(s, op);
      case UpdateRouter(_, _, _, _, _, _) => AttachmentSubnets(s, op);
      case AttachSubnet(_, _, _, _, _) => AttachmentSubnets(s, op);
      case AttachPort(_, _, _, _, _) => AttachmentSubnets(s, op);
      case DeleteRouter(r, order) => RouterDeletedSubnets(s, op, r, order);
      case DetachPort(r, ref, order) => DetachedByPortSubnets(s, op, r, ref, order);
      case DetachSubnet(r, d) => DetachedBySubnetSubnets(s, op, r, d);
      case DetachBoth(r, d, ref, order) => DetachedByPortSubnets(s, op, r, ref, order);
    }
  }
}
