/** What the ACL table does to a packet, over whole runs.  As ovn-nb(5) has it, of the ACLs of one
    direction that match a packet those of the highest priority decide, and a packet no ACL matches
    is let through. */
module Verdicts {
  import opened Text
  import opened Matches
  import opened Acls
  import opened AclMeaning
  import opened PortGroups
  import opened SecurityGroups
  import opened SecurityInvariants
  import opened SecurityRuns
  import opened SecurityTracks
  import opened SecurityRules
  import opened ReservedGroups

  /** The network ACLs see: the members of a group are the ports of its row. */
  function Seen(s: State, addresses: map<PortId, set<Address>>, covers: (string, Address) -> bool): Network {
    Network(map g | g in s.groups :: s.groups[g].ports, addresses, covers)
  }

  ghost predicate Applies(s: State, net: Network, d: Direction, p: Packet, g: Name, id: AclId) {
    OwnsAcl(s, g, id) && s.groups[g].acls[id].direction == d && Selects(s.groups[g].acls[id].text, net, p)
  }

  /** A matching ACL that none of higher priority overrides. */
  ghost predicate Decides(s: State, net: Network, d: Direction, p: Packet, g: Name, id: AclId) {
    && Applies(s, net, d, p, g, id)
    && forall h, j :: Applies(s, net, d, p, h, j) ==> s.groups[h].acls[j].priority <= s.groups[g].acls[id].priority
  }

  ghost predicate Admitted(s: State, net: Network, d: Direction, p: Packet) {
    forall g, id :: Decides(s, net, d, p, g, id) ==> s.groups[g].acls[id].action == Allow
  }

  // ---------------------------------------------------------------------------------------------
  // The two kinds of ACL
  // ---------------------------------------------------------------------------------------------

  lemma DropAclIs(d: Direction, net: Network, p: Packet)
    ensures DropAcl(d).action == Drop && DropAcl(d).priority == DROP_PRIORITY && DropAcl(d).direction == d
    ensures Selects(DropAcl(d).text, net, p) <==> IsIp(p) && net.Member(DROP_ALL, LocalPort(d, p))
  {
    hide MatchText, ParseMatch;
    ReservedAreWords();
    MatchReadsBack(DropAtoms(d));
    assert DropAtoms(d) == [AtPort(d, DROP_ALL)] + [AnyIp];
    AllHoldAppend([AtPort(d, DROP_ALL)], [AnyIp], net, p);
    OneHolds(AtPort(d, DROP_ALL), net, p);
    OneHolds(AnyIp, net, p);
  }

  /** The ACL of a rule concerns the ports of its own group only. */
  lemma RuleAclIs(rule: Rule, g: Name, acl: Acl, net: Network, p: Packet)
    requires CleanRule(rule, g) && RuleAcl(rule, g) == Some(acl)
    ensures acl.action == Allow && acl.priority == ALLOW_PRIORITY && acl.direction == rule.direction
    ensures Selects(acl.text, net, p) ==> net.Member(g, LocalPort(rule.direction, p))
    ensures rule.etherType != OtherType && Recognised(rule) ==> (Selects(acl.text, net, p) <==> Admits(rule, g, net, p))
  {
    hide MatchText, ParseMatch, Admits, Recognised, CleanRule;
    CompiledIsClean(rule, g);
    MatchReadsBack(CompiledAtoms(rule, g).value);
    var atoms := CompiledAtoms(rule, g).value;
    assert atoms[0] == AtPort(rule.direction, g);
    assert AllHold(atoms, net, p) ==> Holds(atoms[0], net, p);
    if rule.etherType != OtherType && Recognised(rule) {
      StoredMatchMeans(rule, g, net, p);
    }
  }

  lemma AclIs(s: State, g: Name, id: AclId, addresses: map<PortId, set<Address>>, covers: (string, Address) -> bool,
              p: Packet)
    requires WellKept(s) && OwnsAcl(s, g, id)
    ensures var acl := s.groups[g].acls[id];
            var net := Seen(s, addresses, covers);
            && (acl.priority == if acl.action == Allow then ALLOW_PRIORITY else DROP_PRIORITY)
            && (acl.action == Drop ==> g == DROP_ALL)
            && (Selects(acl.text, net, p) ==> In(s, g, LocalPort(acl.direction, p)))
            && (acl.action == Drop && Selects(acl.text, net, p) ==> IsIp(p))
  {
    hide Selects, RuleAcl, CleanRule, DropAcl;
    var acl := s.groups[g].acls[id];
    var net := Seen(s, addresses, covers);
    assert Shaped(acl, g);
    if FromRule(acl, g) {
      var rule :| CleanRule(rule, g) && RuleAcl(rule, g) == Some(acl);
      RuleAclIs(rule, g, acl, net, p);
    } else {
      DropAclIs(acl.direction, net, p);
    }
  }

  // ---------------------------------------------------------------------------------------------
  // Verdicts
  // ---------------------------------------------------------------------------------------------

  /** ACLs that decide together agree, so the verdict does not depend on which of them is taken. */
  lemma DecidersAgree(s: State, addresses: map<PortId, set<Address>>, covers: (string, Address) -> bool,
                      d: Direction, p: Packet, g: Name, id: AclId, h: Name, j: AclId)
    requires WellKept(s)
    ensures Decides(s, Seen(s, addresses, covers), d, p, g, id) &&
            Decides(s, Seen(s, addresses, covers), d, p, h, j) ==>
              s.groups[g].acls[id].action == s.groups[h].acls[j].action
  {
    hide WellKept, Selects, Seen;
    if OwnsAcl(s, g, id) && OwnsAcl(s, h, j) {
      AclIs(s, g, id, addresses, covers, p);
      AclIs(s, h, j, addresses, covers, p);
    }
  }

  /** A port outside DropAll never has a packet dropped, and neither has any port one that is not IP. */
  lemma OutsideDropAllAdmits(s: State, addresses: map<PortId, set<Address>>, covers: (string, Address) -> bool,
                             d: Direction, p: Packet)
    requires WellKept(s) && (!In(s, DROP_ALL, LocalPort(d, p)) || !IsIp(p))
    ensures Admitted(s, Seen(s, addresses, covers), d, p)
  {
    hide WellKept, Selects, Seen;
    var net := Seen(s, addresses, covers);
    forall g, id | Decides(s, net, d, p, g, id)
      ensures s.groups[g].acls[id].action == Allow
    {
      AclIs(s, g, id, addresses, covers, p);
    }
  }

  /** DropAll still has the ACL that drops packets of the direction. */
  ghost predicate Guarded(s: State, d: Direction) {
    Has(s, DROP_ALL, DropAcl(d))
  }

  /** Some rule of a group of the port lets the packet through. */
  ghost predicate Allowed(s: State, net: Network, d: Direction, p: Packet, g: Name, id: AclId) {
    Applies(s, net, d, p, g, id) && s.groups[g].acls[id].action == Allow && In(s, g, LocalPort(d, p))
  }

  /** Every ACL that drops is one DropAll was made with. */
  lemma DropsAreReserved(s: State, g: Name, id: AclId)
    requires WellKept(s) && OwnsAcl(s, g, id) && s.groups[g].acls[id].action == Drop
    ensures g == DROP_ALL && s.groups[g].acls[id] == DropAcl(s.groups[g].acls[id].direction)
  {
    hide RuleAcl, CleanRule, DropAcl;
    var acl := s.groups[g].acls[id];
    assert Shaped(acl, g);
    if FromRule(acl, g) {
      var rule :| CleanRule(rule, g) && RuleAcl(rule, g) == Some(acl);
      RuleAclAllows(rule, g);
    }
  }

  lemma RuleAclAllows(rule: Rule, g: Name)
    ensures RuleAcl(rule, g).Some? ==> RuleAcl(rule, g).value.action == Allow
  {
  }

  /** For a port in DropAll an IP packet is admitted exactly when an ACL of one of its groups allows it, or
      DropAll has lost the ACL that would drop it. */
  lemma InsideDropAllVerdict(s: State, addresses: map<PortId, set<Address>>, covers: (string, Address) -> bool,
                             d: Direction, p: Packet)
    requires WellKept(s) && IsIp(p) && In(s, DROP_ALL, LocalPort(d, p))
    ensures Admitted(s, Seen(s, addresses, covers), d, p) <==>
            !Guarded(s, d) || exists g, id :: Allowed(s, Seen(s, addresses, covers), d, p, g, id)
  {
    hide WellKept, Selects, DropAcl;
    var net := Seen(s, addresses, covers);
    DropAclIs(d, net, p);
    forall g, id | Applies(s, net, d, p, g, id)
      ensures s.groups[g].acls[id].priority ==
              if s.groups[g].acls[id].action == Allow then ALLOW_PRIORITY else DROP_PRIORITY
      ensures s.groups[g].acls[id].action == Allow ==> Allowed(s, net, d, p, g, id)
      ensures s.groups[g].acls[id].action == Drop ==> Guarded(s, d)
    {
      AclIs(s, g, id, addresses, covers, p);
      if s.groups[g].acls[id].action == Drop {
        DropsAreReserved(s, g, id);
        assert Contains(s.groups[DROP_ALL], DropAcl(d));
      }
    }
    if Guarded(s, d) {
      GuardDrops(s, net, d, p);
    }
  }

  /** The ACL of DropAll decides where no other allows. */
  lemma GuardDrops(s: State, net: Network, d: Direction, p: Packet)
    requires Guarded(s, d) && Selects(DropAcl(d).text, net, p) && DropAcl(d).direction == d && DropAcl(d).action == Drop
    requires forall g, id :: Applies(s, net, d, p, g, id) ==>
               && (s.groups[g].acls[id].action == Allow ==> Allowed(s, net, d, p, g, id))
               && s.groups[g].acls[id].priority ==
                  if s.groups[g].acls[id].action == Allow then ALLOW_PRIORITY else DROP_PRIORITY
    ensures Admitted(s, net, d, p) ==> exists g, id :: Allowed(s, net, d, p, g, id)
  {
    hide Selects, DropAcl;
    var drop :| drop in s.groups[DROP_ALL].acls && s.groups[DROP_ALL].acls[drop] == DropAcl(d);
    assert Applies(s, net, d, p, DROP_ALL, drop);
    if forall g, id :: !Allowed(s, net, d, p, g, id) {
      assert Decides(s, net, d, p, DROP_ALL, drop);
    }
  }

  /** In every reachable state: an IP packet at a port in DropAll is admitted exactly when an ACL of one of
      the port's groups allows it or DropAll has lost its drop ACL; nothing else is ever dropped. */
  lemma ReachableVerdict(ops: seq<Op>, addresses: map<PortId, set<Address>>, covers: (string, Address) -> bool,
                         d: Direction, p: Packet)
    requires LegalRun(EMPTY, ops)
    ensures var s := Run(EMPTY, ops);
            var net := Seen(s, addresses, covers);
            Admitted(s, net, d, p) <==>
            || !IsIp(p) || !In(s, DROP_ALL, LocalPort(d, p)) || !Guarded(s, d)
            || exists g, id :: Allowed(s, net, d, p, g, id)
  {
    hide WellKept, Allowed, Guarded, Admitted, Seen, Run, LegalRun;
    var s := Run(EMPTY, ops);
    ReachableWellKept(ops);
    if IsIp(p) && In(s, DROP_ALL, LocalPort(d, p)) {
      InsideDropAllVerdict(s, addresses, covers, d, p);
    } else {
      OutsideDropAllAdmits(s, addresses, covers, d, p);
    }
  }

  // ---------------------------------------------------------------------------------------------
  // Rules whose meaning is kept
  // ---------------------------------------------------------------------------------------------

  ghost predicate Plain(rule: Rule) {
    rule.etherType != OtherType && Recognised(rule)
  }

  /** Every ACL that allows comes from a rule of a known ethertype whose protocol was recognised. */
  ghost predicate Understood(s: State) {
    forall g, id :: OwnsAcl(s, g, id) && s.groups[g].acls[id].action == Allow ==> FromPlain(s, g, id)
  }

  ghost predicate FromPlain(s: State, g: Name, id: AclId) {
    g in s.groups && exists rule :: Carries(s.groups[g], g, id, rule) && Plain(rule)
  }

  /** Rules that are added have a known ethertype and a protocol that is recognised. */
  ghost predicate PlainRules(ops: seq<Op>) {
    forall i :: 0 <= i < |ops| && ops[i].AddRule? ==> Plain(ops[i].rule)
  }

  lemma SameRulesUnderstood(s: State, t: State)
    requires Understood(s) && SameRules(s, t)
    ensures Understood(t)
  {
    hide Plain, Carries;
    forall g, id | OwnsAcl(t, g, id) && t.groups[g].acls[id].action == Allow
      ensures FromPlain(t, g, id)
    {
      assert FromPlain(s, g, id);
      var rule :| Carries(s.groups[g], g, id, rule) && Plain(rule);
      CarriesAlike(s.groups[g], t.groups[g], g, id, rule);
    }
  }

  lemma CarriesAlike(row: Group, other: Group, g: Name, id: AclId, rule: Rule)
    requires Carries(row, g, id, rule) && id in other.acls && other.acls[id] == row.acls[id]
    ensures Carries(other, g, id, rule)
  {
  }

  ghost predicate Of(acl: Acl, g: Name, rule: Rule) {
    CleanRule(rule, g) && RuleAcl(rule, g) == Some(acl) && Plain(rule)
  }

  ghost predicate AllPlain(acls: seq<Acl>, g: Name) {
    forall k :: 0 <= k < |acls| && acls[k].action == Allow ==> exists rule :: Of(acls[k], g, rule)
  }

  /** A group made with given ACLs, each of which drops or comes from a plain rule. */
  lemma ProvisionedUnderstood(s: State, g: Name, u: Uuid, ids: seq<AclId>, acls: seq<Acl>)
    requires Understood(s) && |ids| == |acls| && NewIds(s, ids)
    requires AllPlain(acls, g)
    ensures Understood(Provisioned(s, g, u, ids, acls))
  {
    hide CleanRule, RuleAcl, Plain, Table;
    if g !in s.groups {
      var t := Provisioned(s, g, u, ids, acls);
      var row := Group(u, {}, Table(ids, acls), 1);
      assert t.groups == s.groups[g := row];
      TableHolds(ids, acls);
      forall h, id | OwnsAcl(t, h, id) && t.groups[h].acls[id].action == Allow
        ensures FromPlain(t, h, id)
      {
        if h == g {
          var k :| 0 <= k < |ids| && ids[k] == id;
          var rule :| Of(acls[k], g, rule);
          assert Carries(row, g, id, rule);
        } else {
          assert FromPlain(s, h, id);
        }
      }
    }
  }

  lemma OpenAclIsPlain(rule: Rule, g: Name)
    requires rule.protocol == None && rule.etherType != OtherType && CleanRule(rule, g)
    ensures RuleAcl(rule, g).Some? && Of(OpenAcl(rule, g), g, rule)
  {
    hide HeadAtoms, MatchText;
    OpenAclIs(rule, g);
  }

  lemma EgressAclsPlain(g: Name)
    requires CleanFragment(g)
    ensures |EgressAcls(g)| == 2 && AllPlain(EgressAcls(g), g)
  {
    hide OpenAcl, Of;
    OpenAclIsPlain(EgressRule(IPv4), g);
    OpenAclIsPlain(EgressRule(IPv6), g);
  }

  lemma ReservedAclsPlain()
    ensures |DropAcls()| == 2 && AllPlain(DropAcls(), DROP_ALL)
    ensures |DefaultAcls()| == 4 && AllPlain(DefaultAcls(), DEFAULT)
  {
    hide OpenAcl, Of, MatchText;
    ReservedAreWords();
    FourAclsPlain(DEFAULT);
  }

  lemma FourAclsPlain(g: Name)
    requires CleanFragment(g)
    ensures var acls := EgressAcls(g) + [OpenAcl(IngressFrom(IPv4, g), g), OpenAcl(IngressFrom(IPv6, g), g)];
            |acls| == 4 && AllPlain(acls, g)
  {
    hide OpenAcl, Of;
    EgressAclsPlain(g);
    OpenAclIsPlain(IngressFrom(IPv4, g), g);
    OpenAclIsPlain(IngressFrom(IPv6, g), g);
  }

  lemma SecuredUnderstood(s: State, f: Fresh)
    requires Understood(s) && IsFresh(s, f)
    ensures Understood(Secured(s, f))
  {
    hide DropAcls, DefaultAcls, Understood, NewUuid;
    ReservedAreWords();
    SplitIds(s, f);
    ReservedAclsPlain();
    ProvisionedUnderstood(s, DROP_ALL, f.dropUuid, f.dropIds, DropAcls());
    var mid := Provisioned(s, DROP_ALL, f.dropUuid, f.dropIds, DropAcls());
    StillNew(s, DROP_ALL, f.dropUuid, f.dropIds, DropAcls(), f.defaultIds);
    ProvisionedUnderstood(mid, DEFAULT, f.defaultUuid, f.defaultIds, DefaultAcls());
  }

  lemma AddRuleUnderstood(s: State, ref: string, rule: Rule, id: AclId)
    requires Valid(s) && WellKept(s) && Understood(s) && NewIds(s, [id])
    requires CleanRule(rule.(remoteGroup := None), "") && Plain(rule)
    ensures Understood(RuleAdded(s, ref, rule, id).0)
  {
    hide RuleAcl, CleanRule, WellKept, WithRemote, Recognised;
    var (t, ok) := RuleAdded(s, ref, rule, id);
    if ok {
      var g, resolved := Resolve(s, ref).value, WithRemote(s, rule).value;
      RemoteIsClean(s, rule, g);
      RemoteIsPlain(s, rule);
      assert [id][0] == id;
      assert forall h :: h in s.groups ==> id !in s.groups[h].acls;
      assert Carries(t.groups[g], g, id, resolved);
      AddedAclUnderstood(s, t, g, id, RuleAcl(resolved, g).value);
    }
  }

  lemma RemoteIsPlain(s: State, rule: Rule)
    requires Plain(rule)
    ensures WithRemote(s, rule).Some? ==> Plain(WithRemote(s, rule).value)
  {
  }

  lemma AddedAclUnderstood(s: State, t: State, g: Name, id: AclId, acl: Acl)
    requires Understood(s) && g in s.groups
    requires forall h :: h in s.groups ==> id !in s.groups[h].acls
    requires t == WithGroup(s, g, Bumped(s.groups[g].(acls := s.groups[g].acls[id := acl])))
    requires FromPlain(t, g, id)
    ensures Understood(t)
  {
    hide Plain, CleanRule, RuleAcl;
    forall h, i | OwnsAcl(t, h, i) && t.groups[h].acls[i].action == Allow
      ensures FromPlain(t, h, i)
    {
      if i != id {
        assert FromPlain(s, h, i);
        var rule :| Carries(s.groups[h], h, i, rule) && Plain(rule);
        CarriesAlike(s.groups[h], t.groups[h], h, i, rule);
      }
    }
  }

  lemma RemoveRuleUnderstood(s: State, g: Name, id: AclId)
    requires Valid(s) && WellKept(s) && Understood(s) && OwnsAcl(s, g, id)
    ensures Understood(RuleRemoved(s, g, id).0)
  {
    hide RuleRemoved, WellKept, Plain, Carries;
    RemovedIsExact(s, g, id);
    var t := RuleRemoved(s, g, id).0;
    forall h, i | OwnsAcl(t, h, i) && t.groups[h].acls[i].action == Allow
      ensures FromPlain(t, h, i)
    {
      assert OwnsAcl(s, h, i) && FromPlain(s, h, i);
      var rule :| Carries(s.groups[h], h, i, rule) && Plain(rule);
      CarriesAlike(s.groups[h], t.groups[h], h, i, rule);
    }
  }

  lemma AddGroupUnderstood(s: State, name: string, g: Name, u: Uuid, ids: seq<AclId>)
    requires Understood(s) && NewIds(s, ids) && |ids| == 2 && CleanFragment(g)
    ensures Understood(GroupAdded(s, name, g, u, ids).0)
  {
    hide Understood, OpenAcl;
    ReservedAreWords();
    var h := if name == DEFAULT || name == DROP_ALL then name else g;
    EgressAclsPlain(h);
    ProvisionedUnderstood(s, h, u, ids, EgressAcls(h));
  }

  lemma StepUnderstood(s: State, op: Op)
    requires Valid(s) && WellKept(s) && Understood(s) && Legal(s, op) && (op.AddRule? ==> Plain(op.rule))
    ensures Understood(Step(s, op).0)
  {
    hide PortAdded, PortUpdated, RuleAdded, RuleRemoved, GroupAdded, Understood, WellKept, Secured, SameRules;
    hide CleanRule, Plain;
    match op
    case AddGroup(name, g, u, ids) => AddGroupUnderstood(s, name, g, u, ids);
    case AddRule(ref, rule, id) => AddRuleUnderstood(s, ref, rule, id);
    case RemoveRule(g, id) => RemoveRuleUnderstood(s, g, id);
    case AddPort(_, _, _, _, _, _, _) => PortCallUnderstood(s, op);
    case UpdatePort(_, _, _, _, _, _) => PortCallUnderstood(s, op);
    case DeletePort(p) => OtherCallUnderstood(s, op);
    case DeleteGroup(ref) => OtherCallUnderstood(s, op);
    case UpdateGroup(ref) => OtherCallUnderstood(s, op);
  }

  lemma OtherCallUnderstood(s: State, op: Op)
    requires Understood(s) && Legal(s, op) && (op.DeletePort? || op.DeleteGroup? || op.UpdateGroup?)
    ensures Understood(Step(s, op).0)
  {
    hide Understood, Step, SameRules;
    FewerKeepRules(s, op);
    SameRulesUnderstood(s, Step(s, op).0);
  }

  lemma PortCallUnderstood(s: State, op: Op)
    requires Understood(s) && Legal(s, op) && (op.AddPort? || op.UpdatePort?)
    ensures Understood(Step(s, op).0)
  {
    hide Step, Understood, Secured, SameRules;
    SecuredUnderstood(s, op.rows);
    PortCallsKeepRules(s, op);
    if SameRules(s, Step(s, op).0) {
      SameRulesUnderstood(s, Step(s, op).0);
    } else {
      SameRulesUnderstood(Secured(s, op.rows), Step(s, op).0);
    }
  }

  lemma {:induction false} RunUnderstood(s: State, ops: seq<Op>)
    requires Valid(s) && WellKept(s) && Understood(s) && LegalRun(s, ops) && PlainRules(ops)
    ensures Understood(Run(s, ops))
    decreases |ops|
  {
    hide Step, WellKept, Valid, Understood, Plain;
    if ops != [] {
      StepUnderstood(s, ops[0]);
      StepWellKept(s, ops[0]);
      StepValid(s, ops[0]);
      assert forall i :: 0 <= i < |ops[1..]| ==> ops[1..][i] == ops[i + 1];
      RunUnderstood(Step(s, ops[0]).0, ops[1..]);
    }
  }

  // ---------------------------------------------------------------------------------------------
  // The verdict in terms of rules
  // ---------------------------------------------------------------------------------------------

  /** A rule of direction `d` of the group `g`, which the port is in, describes the packet. */
  ghost predicate Describes(s: State, net: Network, d: Direction, p: Packet, g: Name, id: AclId, rule: Rule) {
    && In(s, g, LocalPort(d, p)) && Carries(s.groups[g], g, id, rule) && Plain(rule)
    && rule.direction == d && Admits(rule, g, net, p)
  }

  lemma DescribedIffAllowed(s: State, addresses: map<PortId, set<Address>>, covers: (string, Address) -> bool,
                            d: Direction, p: Packet, g: Name, id: AclId)
    requires WellKept(s) && Understood(s)
    ensures var net := Seen(s, addresses, covers);
            Allowed(s, net, d, p, g, id) <==> exists rule :: Describes(s, net, d, p, g, id, rule)
  {
    hide WellKept, Selects, RuleAcl, CleanRule, Admits, Recognised;
    var net := Seen(s, addresses, covers);
    if Allowed(s, net, d, p, g, id) {
      assert FromPlain(s, g, id);
      var rule :| Carries(s.groups[g], g, id, rule) && Plain(rule);
      RuleAclIs(rule, g, s.groups[g].acls[id], net, p);
      assert Describes(s, net, d, p, g, id, rule);
    }
    if rule :| Describes(s, net, d, p, g, id, rule) {
      RuleAclIs(rule, g, s.groups[g].acls[id], net, p);
    }
  }

  /** In every state a run of plain rules reaches: an IP packet at a port in DropAll is admitted exactly when
      a rule of its direction, in a group of the port, describes it or DropAll has lost its drop ACL. */
  lemma ReachableRuleVerdict(ops: seq<Op>, addresses: map<PortId, set<Address>>, covers: (string, Address) -> bool,
                             d: Direction, p: Packet)
    requires LegalRun(EMPTY, ops) && PlainRules(ops)
    ensures var s := Run(EMPTY, ops);
            var net := Seen(s, addresses, covers);
            Admitted(s, net, d, p) <==>
            || !IsIp(p) || !In(s, DROP_ALL, LocalPort(d, p)) || !Guarded(s, d)
            || exists g, id, rule :: Describes(s, net, d, p, g, id, rule)
  {
    hide WellKept, Understood, Describes, Allowed, Guarded, Admitted, Seen, Run, LegalRun, PlainRules, Valid;
    var s := Run(EMPTY, ops);
    var net := Seen(s, addresses, covers);
    ReachableVerdict(ops, addresses, covers, d, p);
    ReachableWellKept(ops);
    EmptyIsWellKept();
    EmptyIsUnderstood();
    RunUnderstood(EMPTY, ops);
    forall g, id
      ensures Allowed(s, net, d, p, g, id) <==> exists rule :: Describes(s, net, d, p, g, id, rule)
    {
      DescribedIffAllowed(s, addresses, covers, d, p, g, id);
    }
    if g, id :| Allowed(s, net, d, p, g, id) {
      var rule :| Describes(s, net, d, p, g, id, rule);
    }
    if g, id, rule :| Describes(s, net, d, p, g, id, rule) {
      assert Allowed(s, net, d, p, g, id);
    }
  }

  lemma EmptyIsUnderstood()
    ensures Understood(EMPTY)
  {
  }

  /** DropAll keeps its drop ACL where no call posts the group or deletes the ACL as a rule. */
  lemma GuardedIfSpared(ops: seq<Op>, d: Direction)
    requires LegalRun(EMPTY, ops) && SparingRun(EMPTY, ops, DROP_ALL, DropAcl(d)) && DROP_ALL in Run(EMPTY, ops).groups
    ensures Guarded(Run(EMPTY, ops), d)
  {
    hide Run, LegalRun, SparingRun, DropAcl;
    assert DropAcl(d) in DropAcls();
    ReachableKeeps(ops, DROP_ALL, DropAcl(d));
  }

  /** The same for the `port_security` column a caller sets, over the runs that keep it on the ports in
      DropAll. */
  lemma SecuredPortVerdict(ops: seq<Op>, addresses: map<PortId, set<Address>>, covers: (string, Address) -> bool,
                           d: Direction, p: Packet)
    requires LegalRun(EMPTY, ops) && MarkingRun(EMPTY, ops) && LocalPort(d, p) in Run(EMPTY, ops).ports
    ensures var s := Run(EMPTY, ops);
            var net := Seen(s, addresses, covers);
            var open := !IsIp(p) || s.ports[LocalPort(d, p)].portSecurity == [] || !Guarded(s, d);
            && (Admitted(s, net, d, p) <==> open || exists g, id :: Allowed(s, net, d, p, g, id))
            && (PlainRules(ops) ==>
                (Admitted(s, net, d, p) <==> open || exists g, id, rule :: Describes(s, net, d, p, g, id, rule)))
  {
    hide Describes, Allowed, Admitted, Seen, Run, Guarded, PlainRules, LegalRun, MarkingRun;
    ReachableVerdict(ops, addresses, covers, d, p);
    ReachableMarks(ops, LocalPort(d, p));
    if PlainRules(ops) {
      ReachableRuleVerdict(ops, addresses, covers, d, p);
    }
  }

  // ---------------------------------------------------------------------------------------------
  // Default
  // ---------------------------------------------------------------------------------------------

  /** The rule Default is made with for the direction and version. */
  function OpenRule(d: Direction, e: EtherType): Rule {
    if d == Egress then EgressRule(e) else IngressFrom(e, DEFAULT)
  }

  predicate IsOpen(acl: Acl, d: Direction, p: Packet) {
    acl == OpenAcl(OpenRule(d, if p.version == V4 then IPv4 else IPv6), DEFAULT)
  }

  ghost predicate BothIn(s: State, p: Packet) {
    && In(s, DROP_ALL, p.inport) && In(s, DROP_ALL, p.outport) && In(s, DEFAULT, p.inport) && In(s, DEFAULT, p.outport)
  }

  ghost predicate FromItself(addresses: map<PortId, set<Address>>, p: Packet) {
    p.inport in addresses && p.src in addresses[p.inport] && p.src.version == p.version
  }

  /** The rule of Default, if it is there, lets the packet of one of its ports through to another. */
  lemma OpenAllows(s: State, addresses: map<PortId, set<Address>>, covers: (string, Address) -> bool, p: Packet,
                   d: Direction)
    requires WellKept(s) && IsIp(p) && BothIn(s, p) && FromItself(addresses, p)
    ensures Has(s, DEFAULT, OpenAcl(OpenRule(d, if p.version == V4 then IPv4 else IPv6), DEFAULT)) <==>
            exists id ::
              Allowed(s, Seen(s, addresses, covers), d, p, DEFAULT, id) && IsOpen(s.groups[DEFAULT].acls[id], d, p)
  {
    hide WellKept, Selects, Admits, CleanRule, DropAcl, RuleAcl, Seen, OpenAcl;
    var e := if p.version == V4 then IPv4 else IPv6;
    ReservedAreWords();
    OpenRuleAdmits(s, addresses, covers, p, d, e, DEFAULT);
    OpenAclIs(OpenRule(d, e), DEFAULT);
    RuleAclIs(OpenRule(d, e), DEFAULT, OpenAcl(OpenRule(d, e), DEFAULT), Seen(s, addresses, covers), p);
    if Has(s, DEFAULT, OpenAcl(OpenRule(d, e), DEFAULT)) {
      var id :| id in s.groups[DEFAULT].acls && s.groups[DEFAULT].acls[id] == OpenAcl(OpenRule(d, e), DEFAULT);
      assert Allowed(s, Seen(s, addresses, covers), d, p, DEFAULT, id);
    }
  }

  lemma OpenRuleAdmits(s: State, addresses: map<PortId, set<Address>>, covers: (string, Address) -> bool,
                       p: Packet, d: Direction, e: EtherType, g: Name)
    requires p.version == VersionOf(e) && e != OtherType && IsIp(p) && In(s, g, p.inport) && In(s, g, p.outport)
    requires CleanFragment(g) && g == DEFAULT && FromItself(addresses, p)
    ensures var rule := OpenRule(d, e);
            && rule.direction == d && rule.protocol == None && rule.etherType == e && Recognised(rule)
            && CleanRule(rule, g) && RuleAcl(rule, g).Some? && OpenAcl(rule, g) == RuleAcl(rule, g).value
            && Admits(rule, g, Seen(s, addresses, covers), p)
  {
    hide MatchText;
    assert Seen(s, addresses, covers).Member(g, p.inport);
  }

  lemma AllowedIsThere(s: State, net: Network, d: Direction, p: Packet, g: Name, id: AclId)
    requires Allowed(s, net, d, p, g, id)
    ensures OwnsAcl(s, g, id)
  {
  }

  /** A packet between two secured ports of Default, sent from an address of its own, is admitted at either
      end exactly when Default still has the rule it was made with for it, DropAll has lost its drop ACL,
      or some other rule lets the packet through. */
  lemma DefaultPortsTalkIff(ops: seq<Op>, addresses: map<PortId, set<Address>>, covers: (string, Address) -> bool,
                            p: Packet, d: Direction)
    requires LegalRun(EMPTY, ops) && IsIp(p) && BothIn(Run(EMPTY, ops), p) && FromItself(addresses, p)
    ensures var s := Run(EMPTY, ops);
            var net := Seen(s, addresses, covers);
            Admitted(s, net, d, p) <==>
            || Has(s, DEFAULT, OpenAcl(OpenRule(d, if p.version == V4 then IPv4 else IPv6), DEFAULT))
            || !Guarded(s, d)
            || exists g, id :: Allowed(s, net, d, p, g, id) && !(g == DEFAULT && IsOpen(s.groups[g].acls[id], d, p))
  {
    hide WellKept, Allowed, Has, IsOpen, OpenAcl, Guarded, Admitted, Seen, Run, LegalRun, FromItself;
    var s := Run(EMPTY, ops);
    var net := Seen(s, addresses, covers);
    ReachableWellKept(ops);
    ReachableVerdict(ops, addresses, covers, d, p);
    OpenAllows(s, addresses, covers, p, d);
    assert In(s, DROP_ALL, LocalPort(d, p));
    if exists g, id :: Allowed(s, net, d, p, g, id) {
      var g, id :| Allowed(s, net, d, p, g, id);
      assert OwnsAcl(s, g, id) by { AllowedIsThere(s, net, d, p, g, id); }
      assert g == DEFAULT && IsOpen(s.groups[g].acls[id], d, p) ==>
               Has(s, DEFAULT, OpenAcl(OpenRule(d, if p.version == V4 then IPv4 else IPv6), DEFAULT));
    }
  }

  /** So they do exchange packets when no call takes the rules of Default away. */
  lemma DefaultPortsTalk(ops: seq<Op>, addresses: map<PortId, set<Address>>, covers: (string, Address) -> bool,
                         p: Packet)
    requires LegalRun(EMPTY, ops) && IsIp(p) && BothIn(Run(EMPTY, ops), p) && FromItself(addresses, p)
    requires forall acl :: acl in DefaultAcls() ==> SparingRun(EMPTY, ops, DEFAULT, acl)
    ensures var s := Run(EMPTY, ops);
            && Admitted(s, Seen(s, addresses, covers), Egress, p)
            && Admitted(s, Seen(s, addresses, covers), Ingress, p)
  {
    hide Admitted, Seen, Run, LegalRun, FromItself, SparingRun, OpenAcl, Guarded, Allowed, IsOpen;
    var e := if p.version == V4 then IPv4 else IPv6;
    OpenIsReserved(e);
    ReachableKeeps(ops, DEFAULT, OpenAcl(OpenRule(Egress, e), DEFAULT));
    ReachableKeeps(ops, DEFAULT, OpenAcl(OpenRule(Ingress, e), DEFAULT));
    DefaultPortsTalkIff(ops, addresses, covers, p, Egress);
    DefaultPortsTalkIff(ops, addresses, covers, p, Ingress);
  }

  lemma OpenIsReserved(e: EtherType)
    requires e != OtherType
    ensures OpenAcl(OpenRule(Egress, e), DEFAULT) in DefaultAcls()
    ensures OpenAcl(OpenRule(Ingress, e), DEFAULT) in DefaultAcls()
    ensures Reserved(DEFAULT, OpenAcl(OpenRule(Egress, e), DEFAULT))
    ensures Reserved(DEFAULT, OpenAcl(OpenRule(Ingress, e), DEFAULT))
  {
    hide OpenAcl;
    assert DefaultAcls() == [OpenAcl(EgressRule(IPv4), DEFAULT), OpenAcl(EgressRule(IPv6), DEFAULT),
                             OpenAcl(IngressFrom(IPv4, DEFAULT), DEFAULT),
                             OpenAcl(IngressFrom(IPv6, DEFAULT), DEFAULT)];
  }
}
