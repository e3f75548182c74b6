/** The ACLs of security groups over whole runs: rules are told apart by what they say, and the
    revision of a group counts its changes. */
module SecurityRules {
  import opened Text
  import opened Matches
  import opened Acls
  import opened AclMeaning
  import opened PortGroups
  import opened SecurityGroups
  import opened SecurityInvariants
  import opened SecurityRuns

  // ---------------------------------------------------------------------------------------------
  // The invariant
  // ---------------------------------------------------------------------------------------------

  ghost predicate FromRule(acl: Acl, g: Name) {
    exists rule :: CleanRule(rule, g) && RuleAcl(rule, g) == Some(acl)
  }

  /** A drop ACL of DropAll, or the ACL of a rule. */
  ghost predicate Shaped(acl: Acl, g: Name) {
    (g == DROP_ALL && acl == DropAcl(acl.direction)) || FromRule(acl, g)
  }

  /** The ACLs of one group say different things, and are recorded as its own. */
  ghost predicate GroupOk(acls: map<AclId, Acl>, g: Name) {
    && (forall i :: i in acls ==> acls[i].owner == g && Shaped(acls[i], g))
    && (forall i, j :: i in acls && j in acls && SameRule(acls[i], acls[j]) ==> i == j)
  }

  ghost predicate WellKept(s: State) {
    && (forall g :: g in s.groups ==> CleanFragment(g) && GroupOk(s.groups[g].acls, g))
    && (forall g, h, i :: OwnsAcl(s, g, i) && OwnsAcl(s, h, i) ==> g == h)
  }

  // ---------------------------------------------------------------------------------------------
  // ACLs made together
  // ---------------------------------------------------------------------------------------------

  ghost predicate DistinctIds(ids: seq<AclId>) {
    forall i, j :: 0 <= i < j < |ids| ==> ids[i] != ids[j]
  }

  lemma {:induction false} TableHolds(ids: seq<AclId>, acls: seq<Acl>)
    requires |ids| == |acls| && DistinctIds(ids)
    ensures forall k :: 0 <= k < |ids| ==> ids[k] in Table(ids, acls) && Table(ids, acls)[ids[k]] == acls[k]
    ensures forall id :: id in Table(ids, acls) ==> id in ids
    decreases |ids|
  {
    if ids != [] {
      var n := |ids| - 1;
      TableHolds(ids[..n], acls[..n]);
      forall k | 0 <= k < n
        ensures ids[k] in Table(ids, acls) && Table(ids, acls)[ids[k]] == acls[k]
      {
        assert ids[..n][k] == ids[k] && acls[..n][k] == acls[k] && ids[k] != ids[n];
      }
    }
  }

  lemma TableOk(ids: seq<AclId>, acls: seq<Acl>, g: Name)
    requires |ids| == |acls| && DistinctIds(ids) && DistinctRules(acls)
    requires forall k :: 0 <= k < |acls| ==> acls[k].owner == g && Shaped(acls[k], g)
    ensures GroupOk(Table(ids, acls), g)
  {
    hide Shaped;
    TableHolds(ids, acls);
    var table := Table(ids, acls);
    forall i | i in table
      ensures table[i].owner == g && Shaped(table[i], g)
    {
      var k :| 0 <= k < |ids| && ids[k] == i;
    }
    forall i, j | i in table && j in table && i != j
      ensures !SameRule(table[i], table[j])
    {
      var k :| 0 <= k < |ids| && ids[k] == i;
      var l :| 0 <= l < |ids| && ids[l] == j;
      assert !SameRule(acls[if k < l then k else l], acls[if k < l then l else k]);
    }
  }

  /** Rules without a protocol compile, and to different strings when they differ. */
  lemma OpenAclIs(rule: Rule, g: Name)
    requires rule.protocol == None && CleanRule(rule, g)
    ensures RuleAcl(rule, g).Some? && OpenAcl(rule, g).owner == g && Shaped(OpenAcl(rule, g), g)
    ensures OpenAcl(rule, g) == Acl(rule.direction, ALLOW_PRIORITY, MatchText(HeadAtoms(rule, g)), Allow, g)
  {
    assert HeadAtoms(rule, g) + [] == HeadAtoms(rule, g);
    assert FromRule(RuleAcl(rule, g).value, g);
  }

  lemma OpenAclsDiffer(a: Rule, b: Rule, g: Name)
    requires a.protocol == None && b.protocol == None && CleanRule(a, g) && CleanRule(b, g)
    requires a.direction != b.direction || HeadAtoms(a, g) != HeadAtoms(b, g)
    ensures RuleAcl(a, g).Some? && RuleAcl(b, g).Some? && !SameRule(OpenAcl(a, g), OpenAcl(b, g))
  {
    hide HeadAtoms, MatchText;
    OpenAclIs(a, g);
    OpenAclIs(b, g);
    HeadIsClean(a, g);
    HeadIsClean(b, g);
    PrintingIsInjective(HeadAtoms(a, g), HeadAtoms(b, g));
  }

  lemma HeadIsClean(rule: Rule, g: Name)
    requires rule.protocol == None && CleanRule(rule, g)
    ensures HeadAtoms(rule, g) != [] && AllClean(HeadAtoms(rule, g))
  {
    CompiledIsClean(rule, g);
    assert HeadAtoms(rule, g) + [] == HeadAtoms(rule, g);
  }

  lemma DropAclsOk()
    ensures |DropAcls()| == 2 && DistinctRules(DropAcls())
    ensures forall k :: 0 <= k < 2 ==> DropAcls()[k].owner == DROP_ALL && Shaped(DropAcls()[k], DROP_ALL)
  {
    hide MatchText;
  }

  lemma EgressAclsOk(g: Name)
    requires CleanFragment(g)
    ensures |EgressAcls(g)| == 2 && DistinctRules(EgressAcls(g))
    ensures forall k :: 0 <= k < 2 ==> EgressAcls(g)[k].owner == g && Shaped(EgressAcls(g)[k], g)
  {
    hide Shaped, SameRule, OpenAcl;
    OpenAclIs(EgressRule(IPv4), g);
    OpenAclIs(EgressRule(IPv6), g);
    VersionsDiffer(EgressRule(IPv4), EgressRule(IPv6), g);
    OpenAclsDiffer(EgressRule(IPv4), EgressRule(IPv6), g);
  }

  lemma VersionsDiffer(a: Rule, b: Rule, g: Name)
    requires a.etherType == IPv4 && b.etherType == IPv6
    ensures HeadAtoms(a, g) != HeadAtoms(b, g)
  {
    assert HeadAtoms(a, g)[1] == IpOf(V4);
    assert HeadAtoms(b, g)[1] == IpOf(V6);
  }

  lemma DefaultAclsOk()
    ensures |DefaultAcls()| == 4 && DistinctRules(DefaultAcls())
    ensures forall k :: 0 <= k < 4 ==> DefaultAcls()[k].owner == DEFAULT && Shaped(DefaultAcls()[k], DEFAULT)
  {
    ReservedAreWords();
    FourAclsOk(DEFAULT);
  }

  lemma FourAclsOk(g: Name)
    requires CleanFragment(g)
    ensures var acls := EgressAcls(g) + [OpenAcl(IngressFrom(IPv4, g), g), OpenAcl(IngressFrom(IPv6, g), g)];
            && |acls| == 4 && DistinctRules(acls)
            && forall k :: 0 <= k < 4 ==> acls[k].owner == g && Shaped(acls[k], g)
  {
    hide Shaped, OpenAcl;
    EgressAclsOk(g);
    OpenAclIs(EgressRule(IPv4), g);
    OpenAclIs(EgressRule(IPv6), g);
    OpenAclIs(IngressFrom(IPv4, g), g);
    OpenAclIs(IngressFrom(IPv6, g), g);
    VersionsDiffer(IngressFrom(IPv4, g), IngressFrom(IPv6, g), g);
    OpenAclsDiffer(IngressFrom(IPv4, g), IngressFrom(IPv6, g), g);
  }

  // ---------------------------------------------------------------------------------------------
  // What each stage keeps
  // ---------------------------------------------------------------------------------------------

  /** The groups that were there keep their rules, and no others appear. */
  ghost predicate SameRules(s: State, t: State) {
    t.groups.Keys <= s.groups.Keys && forall g :: g in t.groups ==> t.groups[g].acls == s.groups[g].acls
  }

  lemma SameRulesWellKept(s: State, t: State)
    requires WellKept(s) && SameRules(s, t)
    ensures WellKept(t)
  {
    hide GroupOk;
    assert forall g, i :: OwnsAcl(t, g, i) ==> OwnsAcl(s, g, i);
  }

  lemma ProvisionedWellKept(s: State, g: Name, u: Uuid, ids: seq<AclId>, acls: seq<Acl>)
    requires WellKept(s) && |ids| == |acls| && NewIds(s, ids) && CleanFragment(g) && DistinctRules(acls)
    requires forall k :: 0 <= k < |acls| ==> acls[k].owner == g && Shaped(acls[k], g)
    ensures WellKept(Provisioned(s, g, u, ids, acls))
  {
    hide GroupOk, Shaped;
    if g !in s.groups {
      TableOk(ids, acls, g);
      TableHolds(ids, acls);
      var t := Provisioned(s, g, u, ids, acls);
      assert t.groups == s.groups[g := Group(u, {}, Table(ids, acls), 1)];
      forall h, k, i | OwnsAcl(t, h, i) && OwnsAcl(t, k, i)
        ensures h == k
      {
        if h != g {
          assert OwnsAcl(s, h, i);
        }
        if k != g {
          assert OwnsAcl(s, k, i);
        }
      }
    }
  }

  lemma SecuredWellKept(s: State, f: Fresh)
    requires WellKept(s) && IsFresh(s, f)
    ensures WellKept(Secured(s, f))
  {
    hide Shaped, WellKept, DropAcls, DefaultAcls;
    ReservedAreWords();
    SplitIds(s, f);
    DropAclsOk();
    ProvisionedWellKept(s, DROP_ALL, f.dropUuid, f.dropIds, DropAcls());
    var mid := Provisioned(s, DROP_ALL, f.dropUuid, f.dropIds, DropAcls());
    StillNew(s, DROP_ALL, f.dropUuid, f.dropIds, DropAcls(), f.defaultIds);
    DefaultAclsOk();
    ProvisionedWellKept(mid, DEFAULT, f.defaultUuid, f.defaultIds, DefaultAcls());
  }

  lemma SplitIds(s: State, f: Fresh)
    requires IsFresh(s, f)
    ensures NewIds(s, f.dropIds) && NewIds(s, f.defaultIds)
    ensures forall i, j :: 0 <= i < 2 && 0 <= j < 4 ==> f.dropIds[i] != f.defaultIds[j]
  {
    var all := f.dropIds + f.defaultIds;
    assert forall i :: 0 <= i < 2 ==> all[i] == f.dropIds[i];
    assert forall j :: 0 <= j < 4 ==> all[j + 2] == f.defaultIds[j];
  }

  lemma StillNew(s: State, g: Name, u: Uuid, ids: seq<AclId>, acls: seq<Acl>, more: seq<AclId>)
    requires |ids| == |acls| && NewIds(s, ids) && NewIds(s, more)
    requires forall i, j :: 0 <= i < |ids| && 0 <= j < |more| ==> ids[i] != more[j]
    ensures NewIds(Provisioned(s, g, u, ids, acls), more)
  {
    TableHolds(ids, acls);
  }

  // ---------------------------------------------------------------------------------------------
  // What each call keeps
  // ---------------------------------------------------------------------------------------------

  lemma MovesKeepRules(s: State, gs: set<Name>, p: PortId)
    ensures SameRules(s, Joined(s, gs, p)) && SameRules(s, Left(s, gs, p))
  {
  }

  /** A port call leaves the rules as they are once the reserved groups are there. */
  lemma AddPortKeepsRules(s: State, p: PortId, mac: string, addressed: bool, network: bool,
                          security: Option<bool>, groups: Option<seq<string>>, f: Fresh)
    requires |f.dropIds| == 2 && |f.defaultIds| == 4
    ensures var t := PortAdded(s, p, mac, addressed, network, security, groups, f).0;
            SameRules(s, t) || SameRules(Secured(s, f), t)
  {
    hide Secured, Joined, Resolved, Resolvable, Words, Join, SameRules;
    var created := s.(ports := s.ports[p := PortRow("", [])]);
    var secure := if security.Some? then security.value else network;
    var refs := if groups.Some? then groups.value else if secure then [DEFAULT] else [];
    var active := if secure then Activated(created, p, f, true) else created;
    var t := PortAdded(s, p, mac, addressed, network, security, groups, f).0;
    SecuredApart(s, created, f);
    SameGroupsRules(s, created);
    SameGroupsRules(s, s);
    if p !in s.ports && addressed && Resolvable(active, Members(refs)) {
      var base := if secure then Secured(s, f) else s;
      SameGroupsRules(base, if secure then Secured(created, f) else created);
      MovesKeepRules(Secured(created, f), {DROP_ALL} + {DEFAULT}, p);
      var joined := Joined(active, Resolved(active, Members(refs)), p);
      MovesKeepRules(active, Resolved(active, Members(refs)), p);
      SameGroupsRules(joined, t);
      SameRulesChain(base, if secure then Secured(created, f) else created, active);
      SameRulesChain(base, active, joined);
      SameRulesChain(base, joined, t);
    }
  }

  lemma SameGroupsRules(s: State, t: State)
    ensures t.groups == s.groups ==> SameRules(s, t)
  {
  }

  lemma SameRulesChain(s: State, mid: State, t: State)
    ensures SameRules(s, mid) && (t == mid || SameRules(mid, t)) ==> SameRules(s, t)
  {
  }

  lemma SecurityUpdateKeepsRules(s: State, p: PortId, mac: string, security: Option<bool>, f: Fresh)
    requires p in s.ports && |f.dropIds| == 2 && |f.defaultIds| == 4
    ensures var t := SecurityUpdated(s, p, mac, security, f); SameRules(s, t) || SameRules(Secured(s, f), t)
  {
    hide Secured, Joined, Left;
    MovesKeepRules(Secured(s, f), {DROP_ALL} + {}, p);
    MovesKeepRules(s, {DROP_ALL}, p);
  }

  lemma UpdatePortKeepsRules(s: State, p: PortId, mac: string, addressed: bool, security: Option<bool>,
                             groups: Option<seq<string>>, f: Fresh)
    requires |f.dropIds| == 2 && |f.defaultIds| == 4
    ensures var t := PortUpdated(s, p, mac, addressed, security, groups, f).0;
            SameRules(s, t) || SameRules(Secured(s, f), t)
  {
    hide Secured, SecurityUpdated, Joined, Left, Resolved, Resolvable, NewRecord;
    if p in s.ports && addressed {
      var secured := SecurityUpdated(s, p, mac, security, f);
      SecurityUpdateKeepsRules(s, p, mac, security, f);
      var wanted := Requested(security, groups);
      if wanted.Some? {
        var had := Members(Words(s.ports[p].record));
        var joined := Joined(secured, Resolved(secured, wanted.value - had), p);
        MovesKeepRules(secured, Resolved(secured, wanted.value - had), p);
        MovesKeepRules(joined, Resolved(secured, had - wanted.value), p);
      }
    }
  }

  lemma SecuredApart(s: State, t: State, f: Fresh)
    requires |f.dropIds| == 2 && |f.defaultIds| == 4 && s.groups == t.groups && s.names == t.names
    ensures Secured(s, f).groups == Secured(t, f).groups
  {
    hide DropAcls, DefaultAcls;
  }

  lemma PortCallsKeepRules(s: State, op: Op)
    requires Legal(s, op) && (op.AddPort? || op.UpdatePort?)
    ensures SameRules(s, Step(s, op).0) || SameRules(Secured(s, op.rows), Step(s, op).0)
  {
    hide PortAdded, PortUpdated, Secured, SameRules;
    if op.AddPort? {
      AddPortKeepsRules(s, op.p, op.mac, op.addressed, op.networkSecurity, op.portSecurity, op.groups, op.rows);
    } else {
      UpdatePortKeepsRules(s, op.p, op.mac, op.addressed, op.portSecurity, op.groups, op.rows);
    }
  }

  lemma RuleAddedWellKept(s: State, ref: string, rule: Rule, id: AclId)
    requires Valid(s) && WellKept(s) && NewIds(s, [id]) && CleanRule(rule.(remoteGroup := None), "")
    ensures WellKept(RuleAdded(s, ref, rule, id).0)
  {
    hide RuleAcl;
    if RuleAdded(s, ref, rule, id).1 {
      var g, resolved := Resolve(s, ref).value, WithRemote(s, rule).value;
      var acl := RuleAcl(resolved, g).value;
      RemoteIsClean(s, rule, g);
      AclOf(resolved, g);
      assert FromRule(acl, g);
      assert [id][0] == id;
      AddedAclOk(s, g, id, acl);
    }
  }

  lemma AclOf(rule: Rule, g: Name)
    ensures RuleAcl(rule, g).Some? ==> RuleAcl(rule, g).value.owner == g
  {
  }

  lemma RemoteIsClean(s: State, rule: Rule, g: Name)
    requires Valid(s) && WellKept(s) && g in s.groups && CleanRule(rule.(remoteGroup := None), "")
    ensures WithRemote(s, rule).Some? ==> CleanRule(WithRemote(s, rule).value, g)
  {
    hide GroupOk;
  }

  lemma AddedAclOk(s: State, g: Name, id: AclId, acl: Acl)
    requires WellKept(s) && g in s.groups && acl.owner == g && Shaped(acl, g) && !HasRule(s.groups[g], acl)
    requires forall h :: h in s.groups ==> id !in s.groups[h].acls
    ensures WellKept(WithGroup(s, g, Bumped(s.groups[g].(acls := s.groups[g].acls[id := acl]))))
  {
    hide Shaped;
    var row := s.groups[g];
    var t := WithGroup(s, g, Bumped(row.(acls := row.acls[id := acl])));
    assert forall i :: i in row.acls ==> !SameRule(row.acls[i], acl) && !SameRule(acl, row.acls[i]);
    assert GroupOk(row.acls[id := acl], g);
    assert forall h, i :: OwnsAcl(t, h, i) ==> (h == g && i == id) || (i != id && OwnsAcl(s, h, i));
  }

  lemma FewerKeepRules(s: State, op: Op)
    requires Legal(s, op) && (op.DeletePort? || op.DeleteGroup? || op.UpdateGroup?)
    ensures SameRules(s, Step(s, op).0)
  {
    hide PortAdded, PortUpdated, RuleAdded, RuleRemoved, GroupAdded, NewIds, NewUuid;
  }

  lemma AddGroupWellKept(s: State, name: string, g: Name, u: Uuid, ids: seq<AclId>)
    requires WellKept(s) && CleanFragment(g) && |ids| == 2 && NewIds(s, ids)
    ensures WellKept(GroupAdded(s, name, g, u, ids).0)
  {
    hide WellKept, OpenAcl, NewIds;
    ReservedAreWords();
    var h := if name == DEFAULT || name == DROP_ALL then name else g;
    EgressAclsOk(h);
    ProvisionedWellKept(s, h, u, ids, EgressAcls(h));
  }

  lemma GroupCallsWellKept(s: State, op: Op)
    requires Valid(s) && WellKept(s) && Legal(s, op) && !op.AddPort? && !op.UpdatePort?
    ensures WellKept(Step(s, op).0)
  {
    hide WellKept, GroupAdded, RuleAdded, RuleRemoved, SameRules, Valid;
    match op
    case AddGroup(name, g, u, ids) => AddGroupWellKept(s, name, g, u, ids);
    case AddRule(ref, rule, id) => RuleAddedWellKept(s, ref, rule, id);
    case RemoveRule(g, id) => FewerAclsWellKept(s, g, id);
    case DeletePort(p) => OtherCallWellKept(s, op);
    case DeleteGroup(ref) => OtherCallWellKept(s, op);
    case UpdateGroup(ref) => OtherCallWellKept(s, op);
  }

  lemma OtherCallWellKept(s: State, op: Op)
    requires WellKept(s) && Legal(s, op) && (op.DeletePort? || op.DeleteGroup? || op.UpdateGroup?)
    ensures WellKept(Step(s, op).0)
  {
    hide WellKept, Step, SameRules;
    FewerKeepRules(s, op);
    SameRulesWellKept(s, Step(s, op).0);
  }

  /** Deleting a rule by what it says removes exactly the ACL that was found by its id. */
  lemma RemovedIsExact(s: State, g: Name, id: AclId)
    requires Valid(s) && WellKept(s) && OwnsAcl(s, g, id)
    ensures var (t, ok) := RuleRemoved(s, g, id);
            && ok && t.groups.Keys == s.groups.Keys
            && t.groups[g].acls == s.groups[g].acls - {id}
            && (forall h :: h in s.groups && h != g ==> t.groups[h] == s.groups[h])
            && t.groups[g].revision == s.groups[g].revision + 1
  {
    hide Shaped;
    var acls := s.groups[g].acls;
    assert Resolve(s, acls[id].owner) == Some(g);
    assert Unlike(acls, acls[id]) == acls - {id};
  }

  lemma FewerAclsWellKept(s: State, g: Name, id: AclId)
    requires Valid(s) && WellKept(s) && OwnsAcl(s, g, id)
    ensures WellKept(RuleRemoved(s, g, id).0)
  {
    hide Shaped, RuleRemoved;
    RemovedIsExact(s, g, id);
    var t := RuleRemoved(s, g, id).0;
    assert GroupOk(s.groups[g].acls - {id}, g);
    assert forall h, i :: OwnsAcl(t, h, i) ==> OwnsAcl(s, h, i);
  }

  /** No call makes two ACLs of a group say the same. */
  lemma StepWellKept(s: State, op: Op)
    requires Valid(s) && WellKept(s) && Legal(s, op)
    ensures WellKept(Step(s, op).0)
  {
    hide Step, WellKept, SameRules, Secured;
    if op.AddPort? || op.UpdatePort? {
      SecuredWellKept(s, op.rows);
      PortCallsKeepRules(s, op);
      if SameRules(s, Step(s, op).0) {
        SameRulesWellKept(s, Step(s, op).0);
      } else {
        SameRulesWellKept(Secured(s, op.rows), Step(s, op).0);
      }
    } else {
      GroupCallsWellKept(s, op);
    }
  }

  // ---------------------------------------------------------------------------------------------
  // All runs
  // ---------------------------------------------------------------------------------------------

  /** In every reachable state the ACLs of a group say different things, belong to it alone, and are
      drop ACLs of DropAll or compiled rules. */
  lemma {:induction false} RunWellKept(s: State, ops: seq<Op>)
    requires Valid(s) && WellKept(s) && LegalRun(s, ops)
    ensures Valid(Run(s, ops)) && WellKept(Run(s, ops))
    decreases |ops|
  {
    hide Step, WellKept, Valid;
    if ops != [] {
      StepWellKept(s, ops[0]);
      StepValid(s, ops[0]);
      RunWellKept(Step(s, ops[0]).0, ops[1..]);
    }
  }

  lemma ReachableWellKept(ops: seq<Op>)
    requires LegalRun(EMPTY, ops)
    ensures Valid(Run(EMPTY, ops)) && WellKept(Run(EMPTY, ops))
  {
    hide Run, LegalRun, Valid, WellKept;
    EmptyIsWellKept();
    RunWellKept(EMPTY, ops);
  }

  lemma EmptyIsWellKept()
    ensures Valid(EMPTY) && WellKept(EMPTY)
  {
  }

  /** So a rule is found by id and deleted by what it says, and nothing else goes: over all runs. */
  lemma ReachableRemovalIsExact(ops: seq<Op>, g: Name, id: AclId)
    requires LegalRun(EMPTY, ops) && OwnsAcl(Run(EMPTY, ops), g, id)
    ensures var s := Run(EMPTY, ops);
            var (t, ok) := RuleRemoved(s, g, id);
            && ok && t.groups.Keys == s.groups.Keys
            && t.groups[g].acls == s.groups[g].acls - {id}
            && (forall h :: h in s.groups && h != g ==> t.groups[h] == s.groups[h])
  {
    hide RuleRemoved;
    ReachableWellKept(ops);
    RemovedIsExact(Run(EMPTY, ops), g, id);
  }

  /** Removing the rule that was just added leaves everything but the revision as it was. */
  lemma RemovalUndoesAddition(s: State, ref: string, g: Name, rule: Rule, id: AclId)
    requires Valid(s) && WellKept(s) && NewIds(s, [id]) && CleanRule(rule.(remoteGroup := None), "")
    requires Resolve(s, ref) == Some(g) && g in s.groups && RuleAdded(s, ref, rule, id).1
    ensures var t := RuleAdded(s, ref, rule, id).0;
            OwnsAcl(t, g, id) &&
            RuleRemoved(t, g, id) == (WithGroup(s, g, s.groups[g].(revision := s.groups[g].revision + 2)), true)
  {
    hide Valid, WellKept, RuleAdded, RuleRemoved, CleanRule, NewIds, WithGroup, Resolve;
    RuleAddedWellKept(s, ref, rule, id);
    AddedTable(s, ref, rule, id);
    RowChangeValid(s, g, RuleAdded(s, ref, rule, id).0.groups[g]);
    AdditionUndone(s, RuleAdded(s, ref, rule, id).0, g, id);
  }

  lemma AdditionUndone(s: State, t: State, g: Name, id: AclId)
    requires Valid(t) && WellKept(t) && OwnsAcl(t, g, id) && g in s.groups && id !in s.groups[g].acls
    requires t == WithGroup(s, g, t.groups[g])
    requires t.groups[g] ==
             s.groups[g].(acls := s.groups[g].acls[id := t.groups[g].acls[id]], revision := s.groups[g].revision + 1)
    ensures RuleRemoved(t, g, id) == (WithGroup(s, g, s.groups[g].(revision := s.groups[g].revision + 2)), true)
  {
    hide Valid, WellKept, RuleRemoved;
    RemovedIsExact(t, g, id);
    RemovedTables(t, g, id);
    var u := RuleRemoved(t, g, id).0;
    assert t.groups[g].acls - {id} == s.groups[g].acls;
    assert u.groups == s.groups[g := u.groups[g]];
  }

  lemma AddedTable(s: State, ref: string, rule: Rule, id: AclId)
    requires Valid(s) && NewIds(s, [id]) && RuleAdded(s, ref, rule, id).1
    ensures var t := RuleAdded(s, ref, rule, id).0;
            var g := Resolve(s, ref).value;
            && g in s.groups && t == WithGroup(s, g, t.groups[g]) && OwnsAcl(t, g, id) && id !in s.groups[g].acls
            && t.groups[g] ==
               s.groups[g].(acls := s.groups[g].acls[id := t.groups[g].acls[id]], revision := s.groups[g].revision + 1)
  {
    hide RuleAcl, WithRemote, HasRule;
    assert [id][0] == id;
  }

  lemma RemovedTables(t: State, g: Name, id: AclId)
    requires OwnsAcl(t, g, id) && RuleRemoved(t, g, id).1
    ensures var u := RuleRemoved(t, g, id).0; u.ports == t.ports && u.names == t.names
    ensures RuleRemoved(t, g, id).0.groups[g] == t.groups[g].(acls := RuleRemoved(t, g, id).0.groups[g].acls,
                                                              revision := RuleRemoved(t, g, id).0.groups[g].revision)
  {
    hide Unlike;
  }

  // ---------------------------------------------------------------------------------------------
  // Listing
  // ---------------------------------------------------------------------------------------------

  /** `list_security_group_rules`: every ACL recorded as of the group under its name or its uuid,
      wherever it is attached, but for the drop ACLs. */
  ghost predicate Listed(s: State, g: Name, id: AclId)
    requires g in s.groups
  {
    exists h ::
      OwnsAcl(s, h, id) && s.groups[h].acls[id].owner in [g, s.groups[g].uuid] && s.groups[h].acls[id].action != Drop
  }

  /** The listing agrees with what is attached to the port group. */
  lemma ListingAgrees(ops: seq<Op>, g: Name, id: AclId)
    requires LegalRun(EMPTY, ops) && g in Run(EMPTY, ops).groups
    ensures var s := Run(EMPTY, ops);
            Listed(s, g, id) <==> OwnsAcl(s, g, id) && s.groups[g].acls[id].action != Drop
  {
    hide Shaped;
    ReachableWellKept(ops);
    var s := Run(EMPTY, ops);
    if Listed(s, g, id) {
      var h :| OwnsAcl(s, h, id) && s.groups[h].acls[id].owner in [g, s.groups[g].uuid];
      assert s.groups[h].acls[id].owner == h;
    }
  }

  // ---------------------------------------------------------------------------------------------
  // Duplicates
  // ---------------------------------------------------------------------------------------------

  /** A rule is refused as a duplicate exactly when a rule compiled to the same conjunction, for the
      same direction, is attached already. */
  lemma DuplicateIffSameConjunction(s: State, g: Name, rule: Rule)
    requires WellKept(s) && g in s.groups && CleanRule(rule, g) && RuleAcl(rule, g).Some?
    ensures HasRule(s.groups[g], RuleAcl(rule, g).value) <==>
            exists id, r ::
              Carries(s.groups[g], g, id, r) && r.direction == rule.direction &&
              CompiledAtoms(r, g) == CompiledAtoms(rule, g)
  {
    hide CompiledAtoms, MatchText, CleanRule, HeadAtoms;
    var acl, row := RuleAcl(rule, g).value, s.groups[g];
    if HasRule(row, acl) {
      var id :| id in row.acls && SameRule(row.acls[id], acl);
      assert Shaped(row.acls[id], g);
      var r :| CleanRule(r, g) && RuleAcl(r, g) == Some(row.acls[id]);
      CompiledIsClean(r, g);
      CompiledIsClean(rule, g);
      PrintingIsInjective(CompiledAtoms(r, g).value, CompiledAtoms(rule, g).value);
      assert Carries(row, g, id, r);
    }
    if id, r :| Carries(row, g, id, r) && r.direction == rule.direction &&
                CompiledAtoms(r, g) == CompiledAtoms(rule, g) {
      assert SameRule(row.acls[id], acl);
    }
  }

  /** The ACL `id` of a group is that of the rule. */
  ghost predicate Carries(row: Group, g: Name, id: AclId, rule: Rule) {
    id in row.acls && CleanRule(rule, g) && RuleAcl(rule, g) == Some(row.acls[id])
  }

  // ---------------------------------------------------------------------------------------------
  // Revisions
  // ---------------------------------------------------------------------------------------------

  /** The group a rule call or a group update changes, when it succeeds. */
  function Changes(s: State, op: Op): Option<Name>
    requires op.RemoveRule? ==> OwnsAcl(s, op.g, op.id)
  {
    match op
    case UpdateGroup(ref) => if GroupUpdated(s, ref).1 then Resolve(s, ref) else None
    case AddRule(ref, rule, id) => if RuleAdded(s, ref, rule, id).1 then Resolve(s, ref) else None
    case RemoveRule(g, id) => if RuleRemoved(s, g, id).1 then Some(g) else None
    case _ => None
  }

  /** How many calls of the run change the group. */
  ghost function ChangesOf(s: State, ops: seq<Op>, g: Name): nat
    requires LegalRun(s, ops)
    decreases |ops|
  {
    if ops == [] then 0
    else (if Changes(s, ops[0]) == Some(g) then 1 else 0) + ChangesOf(Step(s, ops[0]).0, ops[1..], g)
  }

  /** The group is there all along. */
  ghost predicate Stays(s: State, ops: seq<Op>, g: Name)
    requires LegalRun(s, ops)
    decreases |ops|
  {
    g in s.groups && (ops == [] || Stays(Step(s, ops[0]).0, ops[1..], g))
  }

  /** Groups that were there keep their revision, and new ones start at 1. */
  ghost predicate Revised(s: State, t: State) {
    forall g :: g in t.groups ==> t.groups[g].revision == if g in s.groups then s.groups[g].revision else 1
  }

  lemma MovesRevise(s: State, mid: State, gs: set<Name>, p: PortId)
    requires Revised(s, mid)
    ensures Revised(s, Joined(mid, gs, p)) && Revised(s, Left(mid, gs, p))
  {
  }

  lemma SecuredRevises(s: State, f: Fresh)
    requires |f.dropIds| == 2 && |f.defaultIds| == 4
    ensures Revised(s, Secured(s, f))
  {
    hide Table, DropAcls, DefaultAcls;
  }

  lemma AddPortRevises(s: State, p: PortId, mac: string, addressed: bool, network: bool,
                       security: Option<bool>, groups: Option<seq<string>>, f: Fresh)
    requires |f.dropIds| == 2 && |f.defaultIds| == 4
    ensures Revised(s, PortAdded(s, p, mac, addressed, network, security, groups, f).0)
  {
    hide Secured, Joined, Resolved, Resolvable, Words, Join;
    var created := s.(ports := s.ports[p := PortRow("", [])]);
    var secure := if security.Some? then security.value else network;
    var refs := if groups.Some? then groups.value else if secure then [DEFAULT] else [];
    var active := if secure then Activated(created, p, f, true) else created;
    SecuredRevises(created, f);
    MovesRevise(s, Secured(created, f), {DROP_ALL} + {DEFAULT}, p);
    MovesRevise(s, active, Resolved(active, Members(refs)), p);
  }

  lemma UpdatePortRevises(s: State, p: PortId, mac: string, addressed: bool, security: Option<bool>,
                          groups: Option<seq<string>>, f: Fresh)
    requires |f.dropIds| == 2 && |f.defaultIds| == 4
    ensures Revised(s, PortUpdated(s, p, mac, addressed, security, groups, f).0)
  {
    hide Secured, Joined, Left, Resolved, Resolvable, NewRecord, Words;
    if p in s.ports && addressed {
      SecuredRevises(s, f);
      MovesRevise(s, Secured(s, f), {DROP_ALL} + {}, p);
      MovesRevise(s, s, {DROP_ALL}, p);
      var secured := SecurityUpdated(s, p, mac, security, f);
      var wanted := Requested(security, groups);
      if wanted.Some? {
        var had := Members(Words(s.ports[p].record));
        var joined := Joined(secured, Resolved(secured, wanted.value - had), p);
        MovesRevise(s, secured, Resolved(secured, wanted.value - had), p);
        MovesRevise(s, joined, Resolved(secured, had - wanted.value), p);
      }
    }
  }

  lemma PortCallsRevise(s: State, op: Op)
    requires Legal(s, op) && (op.AddPort? || op.UpdatePort?)
    ensures Revised(s, Step(s, op).0)
  {
    hide PortAdded, PortUpdated, Revised;
    if op.AddPort? {
      AddPortRevises(s, op.p, op.mac, op.addressed, op.networkSecurity, op.portSecurity, op.groups, op.rows);
    } else {
      UpdatePortRevises(s, op.p, op.mac, op.addressed, op.portSecurity, op.groups, op.rows);
    }
  }

  lemma StepRevision(s: State, op: Op, g: Name)
    requires Valid(s) && WellKept(s) && Legal(s, op) && g in s.groups && g in Step(s, op).0.groups
    ensures Step(s, op).0.groups[g].revision == s.groups[g].revision + (if Changes(s, op) == Some(g) then 1 else 0)
  {
    hide GroupOk, RuleAcl, WithRemote, PortAdded, PortUpdated;
    if op.AddPort? || op.UpdatePort? {
      PortCallsRevise(s, op);
    } else if op.RemoveRule? {
      RemovedIsExact(s, op.g, op.id);
    }
  }

  /** The revision of a group grows by one with each successful rule added or removed and each update
      of the group, and with nothing else. */
  lemma {:induction false} RevisionCounts(s: State, ops: seq<Op>, g: Name)
    requires Valid(s) && WellKept(s) && LegalRun(s, ops) && Stays(s, ops, g)
    ensures g in Run(s, ops).groups && Run(s, ops).groups[g].revision == s.groups[g].revision + ChangesOf(s, ops, g)
    decreases |ops|
  {
    hide Step, WellKept, Valid, Changes;
    if ops != [] {
      StepRevision(s, ops[0], g);
      StepWellKept(s, ops[0]);
      StepValid(s, ops[0]);
      RevisionCounts(Step(s, ops[0]).0, ops[1..], g);
    }
  }

  /** A group starts at revision 1. */
  lemma CreatedAtOne(s: State, op: Op, g: Name)
    requires Valid(s) && Legal(s, op) && g !in s.groups && g in Step(s, op).0.groups
    ensures Step(s, op).0.groups[g].revision == 1
  {
    hide RuleAcl, WithRemote, PortAdded, PortUpdated, Table, OpenAcl;
    if op.AddPort? || op.UpdatePort? {
      PortCallsRevise(s, op);
    }
  }
}
