/** The ACLs that DropAll and Default are made with: when a call takes one away, over whole runs, and what
    the API does when a caller makes one of the two groups itself. */
module ReservedGroups {
  import opened Acls
  import opened PortGroups
  import opened SecurityGroups
  import opened SecurityInvariants
  import opened SecurityRuns
  import opened SecurityRules

  ghost predicate Contains(row: Group, acl: Acl) {
    exists id :: id in row.acls && row.acls[id] == acl
  }

  ghost predicate Has(s: State, g: Name, acl: Acl) {
    g in s.groups && Contains(s.groups[g], acl)
  }

  /** The group has the ACL if it is there. */
  ghost predicate Keeps(s: State, g: Name, acl: Acl) {
    g in s.groups ==> Contains(s.groups[g], acl)
  }

  /** The provider makes the group `g` with the ACL `acl`. */
  predicate Reserved(g: Name, acl: Acl) {
    (g == DROP_ALL && acl in DropAcls()) || (g == DEFAULT && acl in DefaultAcls())
  }

  /** The call takes the ACL away: a caller posts the group while it is missing, which makes it with two
      egress ACLs only, or deletes the ACL as a rule. */
  ghost predicate Takes(s: State, op: Op, g: Name, acl: Acl)
    requires Legal(s, op)
  {
    || (op.AddGroup? && op.name == g && g !in s.groups && acl !in EgressAcls(g))
    || (op.RemoveRule? && s.groups[op.g].acls[op.id] == acl)
  }

  // ---------------------------------------------------------------------------------------------
  // One call
  // ---------------------------------------------------------------------------------------------

  lemma TableContains(ids: seq<AclId>, acls: seq<Acl>, row: Group, acl: Acl)
    requires |ids| == |acls| && DistinctIds(ids) && row.acls == Table(ids, acls)
    ensures Contains(row, acl) <==> acl in acls
  {
    TableHolds(ids, acls);
    hide Table;
    if acl in acls {
      var k :| 0 <= k < |acls| && acls[k] == acl;
      assert ids[k] in row.acls;
    }
    if Contains(row, acl) {
      var id :| id in row.acls && row.acls[id] == acl;
      var k :| 0 <= k < |ids| && ids[k] == id;
    }
  }

  lemma ProvisionedKeepsIff(s: State, h: Name, u: Uuid, ids: seq<AclId>, acls: seq<Acl>, g: Name, acl: Acl)
    requires Keeps(s, g, acl) && |ids| == |acls| && NewIds(s, ids)
    ensures Keeps(Provisioned(s, h, u, ids, acls), g, acl) <==> !(h == g && g !in s.groups && acl !in acls)
  {
    hide Contains, Table;
    if h !in s.groups && h == g {
      TableContains(ids, acls, Group(u, {}, Table(ids, acls), 1), acl);
    }
  }

  lemma SecuredKeepsAcl(s: State, f: Fresh, g: Name, acl: Acl)
    requires Keeps(s, g, acl) && IsFresh(s, f) && Reserved(g, acl)
    ensures Keeps(Secured(s, f), g, acl)
  {
    hide DropAcls, DefaultAcls, Keeps, NewUuid, NewIds;
    ReservedAreWords();
    SplitIds(s, f);
    DropAclsOk();
    DefaultAclsOk();
    ProvisionedKeepsIff(s, DROP_ALL, f.dropUuid, f.dropIds, DropAcls(), g, acl);
    var mid := Provisioned(s, DROP_ALL, f.dropUuid, f.dropIds, DropAcls());
    StillNew(s, DROP_ALL, f.dropUuid, f.dropIds, DropAcls(), f.defaultIds);
    ProvisionedKeepsIff(mid, DEFAULT, f.defaultUuid, f.defaultIds, DefaultAcls(), g, acl);
  }

  lemma SameRulesKeepAcl(s: State, t: State, g: Name, acl: Acl)
    requires Keeps(s, g, acl) && SameRules(s, t)
    ensures Keeps(t, g, acl)
  {
    assert g in t.groups ==> t.groups[g].acls == s.groups[g].acls;
  }

  lemma ReservedOwner(g: Name, acl: Acl)
    requires Reserved(g, acl)
    ensures acl.owner == g
  {
    hide DropAcls, DefaultAcls;
    DropAclsOk();
    DefaultAclsOk();
  }

  /** Deleting an ACL as a rule takes that one away from its group and no other. */
  lemma RemovalKeepsIff(s: State, h: Name, id: AclId, g: Name, acl: Acl)
    requires Valid(s) && WellKept(s) && OwnsAcl(s, h, id) && Keeps(s, g, acl) && acl.owner == g
    ensures Keeps(RuleRemoved(s, h, id).0, g, acl) <==> s.groups[h].acls[id] != acl
  {
    RemovedIsExact(s, h, id);
    hide RuleRemoved, Valid, Shaped;
    var t := RuleRemoved(s, h, id).0;
    if s.groups[h].acls[id] == acl {
      assert h == g;
      forall i | i in t.groups[g].acls
        ensures t.groups[g].acls[i] != acl
      {
        assert i in s.groups[g].acls && i != id;
      }
    } else if g in s.groups {
      var i :| i in s.groups[g].acls && s.groups[g].acls[i] == acl;
      assert i in t.groups[g].acls && t.groups[g].acls[i] == acl;
    }
  }

  lemma AdditionKeeps(s: State, ref: string, rule: Rule, id: AclId, g: Name, acl: Acl)
    requires Valid(s) && NewIds(s, [id]) && Keeps(s, g, acl)
    ensures Keeps(RuleAdded(s, ref, rule, id).0, g, acl)
  {
    if RuleAdded(s, ref, rule, id).1 {
      AddedTable(s, ref, rule, id);
      hide RuleAdded, Valid;
      var t := RuleAdded(s, ref, rule, id).0;
      if g in s.groups {
        var i :| i in s.groups[g].acls && s.groups[g].acls[i] == acl;
        assert i in t.groups[g].acls && t.groups[g].acls[i] == acl;
      }
    } else {
      RefusedAddition(s, ref, rule, id);
    }
  }

  lemma RefusedAddition(s: State, ref: string, rule: Rule, id: AclId)
    ensures !RuleAdded(s, ref, rule, id).1 ==> RuleAdded(s, ref, rule, id).0 == s
  {
    hide RuleAcl, WithRemote, HasRule;
  }

  lemma PostedKeepsIff(s: State, name: string, generated: Name, u: Uuid, ids: seq<AclId>, g: Name, acl: Acl)
    requires NewIds(s, ids) && |ids| == 2 && generated != g && Keeps(s, g, acl) && (g == DROP_ALL || g == DEFAULT)
    ensures Keeps(GroupAdded(s, name, generated, u, ids).0, g, acl) <==>
            !(name == g && g !in s.groups && acl !in EgressAcls(g))
  {
    hide OpenAcl, Keeps;
    var h := if name == DEFAULT || name == DROP_ALL then name else generated;
    ProvisionedKeepsIff(s, h, u, ids, EgressAcls(h), g, acl);
  }

  /** A call leaves a reserved group with the ACL if and only if it is not one that takes it away. */
  lemma StepKeepsIff(s: State, op: Op, g: Name, acl: Acl)
    requires Valid(s) && WellKept(s) && Legal(s, op) && Reserved(g, acl) && Keeps(s, g, acl)
    ensures Keeps(Step(s, op).0, g, acl) <==> !Takes(s, op, g, acl)
  {
    ReservedOwner(g, acl);
    hide PortAdded, PortUpdated, RuleAdded, RuleRemoved, GroupAdded, WellKept, Secured, SameRules, Keeps, Reserved;
    hide EgressAcls;
    var t := Step(s, op).0;
    match op
    case AddGroup(name, generated, u, ids) =>
      assert g == DROP_ALL || g == DEFAULT by { ReservedNames(g, acl); }
      PostedKeepsIff(s, name, generated, u, ids, g, acl);
    case AddRule(ref, rule, id) => AdditionKeeps(s, ref, rule, id, g, acl);
    case RemoveRule(h, id) => RemovalKeepsIff(s, h, id, g, acl);
    case AddPort(_, _, _, _, _, _, _) => PortCallKeeps(s, op, g, acl);
    case UpdatePort(_, _, _, _, _, _) => PortCallKeeps(s, op, g, acl);
    case DeletePort(p) => assert SameRules(s, t) by { FewerKeepRules(s, op); } SameRulesKeepAcl(s, t, g, acl);
    case DeleteGroup(ref) => assert SameRules(s, t) by { FewerKeepRules(s, op); } SameRulesKeepAcl(s, t, g, acl);
    case UpdateGroup(ref) => assert SameRules(s, t) by { FewerKeepRules(s, op); } SameRulesKeepAcl(s, t, g, acl);
  }

  lemma ReservedNames(g: Name, acl: Acl)
    requires Reserved(g, acl)
    ensures g == DROP_ALL || g == DEFAULT
  {
    hide DropAcls, DefaultAcls;
  }

  lemma PortCallKeeps(s: State, op: Op, g: Name, acl: Acl)
    requires Legal(s, op) && (op.AddPort? || op.UpdatePort?) && Reserved(g, acl) && Keeps(s, g, acl)
    ensures Keeps(Step(s, op).0, g, acl)
  {
    PortCallsKeepRules(s, op);
    SecuredKeepsAcl(s, op.rows, g, acl);
    hide Step, Secured, SameRules, Reserved, Keeps;
    if SameRules(s, Step(s, op).0) {
      SameRulesKeepAcl(s, Step(s, op).0, g, acl);
    } else {
      SameRulesKeepAcl(Secured(s, op.rows), Step(s, op).0, g, acl);
    }
  }

  // ---------------------------------------------------------------------------------------------
  // Whole runs
  // ---------------------------------------------------------------------------------------------

  /** No call of the run takes the ACL away. */
  ghost predicate SparingRun(s: State, ops: seq<Op>, g: Name, acl: Acl)
    requires LegalRun(s, ops)
    decreases |ops|
  {
    ops == [] || (!Takes(s, ops[0], g, acl) && SparingRun(Step(s, ops[0]).0, ops[1..], g, acl))
  }

  /** The group has the ACL, whenever it is there, all along the run. */
  ghost predicate KeepsAlong(s: State, ops: seq<Op>, g: Name, acl: Acl)
    requires LegalRun(s, ops)
    decreases |ops|
  {
    Keeps(s, g, acl) && (ops == [] || KeepsAlong(Step(s, ops[0]).0, ops[1..], g, acl))
  }

  lemma {:induction false} KeepsAtEnd(s: State, ops: seq<Op>, g: Name, acl: Acl)
    requires LegalRun(s, ops) && KeepsAlong(s, ops, g, acl)
    ensures Keeps(Run(s, ops), g, acl)
    decreases |ops|
  {
    hide Step, Keeps;
    if ops != [] {
      KeepsAtEnd(Step(s, ops[0]).0, ops[1..], g, acl);
    }
  }

  /** DropAll and Default have what they were made with all along a run exactly when no call takes it away. */
  lemma {:induction false} RunKeepsIff(s: State, ops: seq<Op>, g: Name, acl: Acl)
    requires Valid(s) && WellKept(s) && LegalRun(s, ops) && Reserved(g, acl) && Keeps(s, g, acl)
    ensures KeepsAlong(s, ops, g, acl) <==> SparingRun(s, ops, g, acl)
    decreases |ops|
  {
    hide Step, WellKept, Valid, Takes, Keeps, Reserved;
    if ops != [] {
      StepKeepsIff(s, ops[0], g, acl);
      StepWellKept(s, ops[0]);
      StepValid(s, ops[0]);
      if Keeps(Step(s, ops[0]).0, g, acl) {
        RunKeepsIff(Step(s, ops[0]).0, ops[1..], g, acl);
      } else {
        NotAlong(Step(s, ops[0]).0, ops[1..], g, acl);
      }
    }
  }

  lemma NotAlong(s: State, ops: seq<Op>, g: Name, acl: Acl)
    requires LegalRun(s, ops)
    ensures !Keeps(s, g, acl) ==> !KeepsAlong(s, ops, g, acl)
  {
    hide Keeps, Step;
  }

  lemma ReachableKeeps(ops: seq<Op>, g: Name, acl: Acl)
    requires LegalRun(EMPTY, ops) && Reserved(g, acl) && SparingRun(EMPTY, ops, g, acl)
    ensures Keeps(Run(EMPTY, ops), g, acl)
  {
    hide Run, LegalRun, SparingRun, Reserved, WellKept, Valid;
    EmptyIsWellKept();
    assert Keeps(EMPTY, g, acl);
    RunKeepsIff(EMPTY, ops, g, acl);
    KeepsAtEnd(EMPTY, ops, g, acl);
  }
}
