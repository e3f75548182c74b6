/** What single calls write about MTUs: the options of a new subnet, the router advertisements of a new
    router port, and the rows an update of a network touches. */
module MtuCalls {
  import opened Text
  import opened RouterTables
  import opened RouterPairing
  import opened RouterRuns
  import opened RouterSteps
  import opened Mtu

  /** A subnet takes the MTU of its network, or the configured one when the network has none; an IPv6 subnet
      does so only when it has an address mode. */
  lemma NewSubnetMtu(s: State, d: SubnetId, ls: LsId, v6: bool, gateway: Option<Ip>, mtu: Option<nat>, length: nat,
                     moded: bool)
    requires Columns(s) && Refers(s.db) && RouterPairing.Legal(s.db, AddSubnet(d, ls, v6, gateway))
    requires d !in s.db.subnets && d in Routed(s, AddSubnet(d, ls, v6, gateway), mtu, length, moded).options
    ensures ls in s.networks
    ensures Routed(s, AddSubnet(d, ls, v6, gateway), mtu, length, moded).options[d] ==
            Options(length, moded, if v6 && !moded then None
                                   else if s.networks[ls].Some? then s.networks[ls] else s.dhcpMtu)
  {
    hide SubnetOn;
  }

  /** A router port made by attaching advertises the MTU of the network of an IPv6 subnet; that of an IPv4
      subnet advertises none, nor does an external gateway. */
  lemma NewPortAdvertises(s: State, call: RouterCall, mtu: Option<nat>, length: nat, moded: bool, l: LrpRow,
                          row: LspRow, r: LrId, ls: LsId, ip: Ip, d: SubnetId)
    requires Shaped(s) && RouterPairing.Legal(s.db, call) && l !in s.adverts && SubnetIsOn(s.db, d, ls)
    requires Leg(Routed(s, call, mtu, length, moded).db, l, row, r, ls, ip)
    ensures var t := Routed(s, call, mtu, length, moded);
            && l in t.adverts && d in s.options && ls in s.networks
            && (call.AttachSubnet? || call.AttachPort? ==>
                  && t.adverts[l].length == s.options[d].length
                  && t.adverts[l].mtu == if s.db.subnets[d].v6 then s.networks[ls] else None)
            && (!call.AttachSubnet? && !call.AttachPort? ==> t.adverts[l].mtu == None)
  {
    var t := Routed(s, call, mtu, length, moded);
    KeptRefers(s.db);
    SoundUnique(s.db);
    StepLegs(s.db, call);
    RoutedColumns(s, call, mtu, length, moded);
    RoutedAdverts(s, call, mtu, length, moded, l);
    NetworkOfSubnet(s.db, d);
    hide RouterPairing.Step, RouterPairing.Legal, RouterPairing.Kept, Refers, Routed, Sized, Sound;
    assert !Leg(s.db, l, row, r, ls, ip);
    assert NewLeg(s.db, call, l, r, ls);
    AskedForIs(s, call, l, r, ls, d);
    hide Leg, NewLeg, AskedFor;
  }

  lemma AskedForIs(s: State, call: RouterCall, l: LrpRow, r: LrId, ls: LsId, d: SubnetId)
    requires Unique(s.db) && NewLeg(s.db, call, l, r, ls) && SubnetIsOn(s.db, d, ls)
    ensures call.AttachSubnet? || call.AttachPort? ==> AskedFor(s, call) == Some(d)
  {
    hide LspAt;
    if call.AttachPort? {
      assert SubnetOn(s.db, ls) == Some(d) by { FoundSubnet(s.db, d); }
    }
  }

  /** What a port must have to be written to on behalf of a subnet. */
  ghost predicate Reachable(s: State, l: LrpRow, d: SubnetId) {
    && d in s.db.subnets && d in s.options && l in s.db.lrps && l in s.adverts && s.db.subnets[d].v6
    && s.db.subnets[d].gateway == Some(s.db.lrps[l].ip) && s.adverts[l].length == s.options[d].length
    && s.db.subnets[d].gatewayRouter in [None, Some(s.db.lrps[l].lr)]
  }

  /** An update touches the MTU of the network, that of its subnet, and the advertisements of a router port of
      an IPv6 subnet that has the subnet's gateway address and prefix length, on the router the subnet names. */
  lemma UpdateTouchesOnly(s: State, ls: LsId, mtu: nat, text: bool, found: Option<LrpRow>)
    requires Columns(s) && Refers(s.db) && Permitted(s, UpdateNetwork(ls, Some(mtu), text, found))
    ensures var t := NetworkUpdated(s, ls, Some(mtu), text, found);
            && (ls in s.networks ==> t.networks == s.networks[ls := Some(mtu)]) && (ls !in s.networks ==> t == s)
            && t.db == s.db && t.options.Keys == s.options.Keys && t.adverts.Keys == s.adverts.Keys
            && (forall d :: d in s.options && t.options[d] != s.options[d] ==>
                  SubnetIsOn(s.db, d, ls) && t.options[d] == s.options[d].(mtu := Some(mtu)))
            && (forall l :: l in s.adverts && t.adverts[l] != s.adverts[l] ==>
                  && t.adverts[l] == s.adverts[l].(mtu := Some(mtu))
                  && exists d :: SubnetIsOn(s.db, d, ls) && Reachable(s, l, d))
  {
    SubnetIsThere(s.db, ls);
    hide SubnetOn, Refers;
    if SubnetOn(s.db, ls).Some? {
      var d := SubnetOn(s.db, ls).value;
      assert SubnetIsOn(s.db, d, ls);
      if found.Some? && s.db.subnets[d].v6 {
        assert Fits(s, found.value, d);
        assert Reachable(s, found.value, d);
      }
      hide Fits, Reachable, SubnetIsOn;
    }
  }

  /** An MTU of 0 posted as a number is set on the network alone, and a string that the subnet carries
      already writes nothing but the network: an interface that has gone out of step stays so.  Any other
      update writes the subnet, and the port found for an IPv6 subnet. */
  lemma UpdateWritesIff(s: State, ls: LsId, mtu: nat, text: bool, found: Option<LrpRow>, d: SubnetId)
    requires Columns(s) && Refers(s.db) && Permitted(s, UpdateNetwork(ls, Some(mtu), text, found))
    requires Unique(s.db) && ls in s.networks && SubnetIsOn(s.db, d, ls)
    ensures var t := NetworkUpdated(s, ls, Some(mtu), text, found);
            && d in s.options && d in t.options
            && if (mtu == 0 && !text) || (text && s.options[d].mtu == Some(mtu))
               then t.options == s.options && t.adverts == s.adverts
               else
                 && t.options[d].mtu == Some(mtu)
                 && (s.db.subnets[d].v6 && found.Some? ==>
                       found.value in t.adverts && t.adverts[found.value].mtu == Some(mtu))
  {
    assert SubnetOn(s.db, ls) == Some(d) by { FoundSubnet(s.db, d); }
    hide SubnetOn, Refers, Unique;
  }
}
