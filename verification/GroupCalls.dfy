/** References to groups, and the calls that delete and update groups and delete ports, in the terms of
    their callers. */
module GroupCalls {
  import opened Text
  import opened PortGroups
  import opened SecurityGroups
  import opened SecurityInvariants
  import opened SecurityRuns

  /** A caller refers to a group by its name or by its uuid. */
  ghost predicate Finds(s: State, ref: string, g: Name) {
    g in s.groups && (ref == g || ref == s.groups[g].uuid)
  }

  lemma ResolvesWhatItFinds(s: State, ref: string)
    requires Valid(s)
    ensures forall g :: Resolve(s, ref) == Some(g) <==> Finds(s, ref, g)
    ensures Resolve(s, ref) == None <==> forall g :: !Finds(s, ref, g)
  {
    if Resolve(s, ref).Some? {
      assert Finds(s, ref, Resolve(s, ref).value);
    }
  }

  lemma EmptyIff(s: State, g: Name)
    requires g in s.groups
    ensures s.groups[g].ports == {} <==> forall p :: !In(s, g, p)
  {
    if p :| p in s.groups[g].ports {
      assert In(s, g, p);
    }
  }

  /** A group is deleted exactly when a reference finds it, it is not Default and no port is in it; no
      reference finds it then, and nothing else has changed. */
  lemma DeletedIff(s: State, ref: string)
    requires Valid(s)
    ensures var (t, ok) := GroupDeleted(s, ref);
            && (ok <==> exists g :: Finds(s, ref, g) && g != "Default" && forall p :: !In(s, g, p))
            && (!ok ==> t == s)
            && (ok ==> t.ports == s.ports && forall g :: Finds(s, ref, g) ==>
                  t.groups == s.groups - {g} && forall r, h :: Finds(t, r, h) <==> Finds(s, r, h) && h != g)
  {
    ResolvesWhatItFinds(s, ref);
    if g :| Finds(s, ref, g) {
      EmptyIff(s, g);
    }
    hide Resolve, Valid, In;
  }

  /** A group is updated exactly when a reference finds it and it is not Default; only its revision grows. */
  lemma UpdatedIff(s: State, ref: string)
    requires Valid(s)
    ensures var (t, ok) := GroupUpdated(s, ref);
            && (ok <==> exists g :: Finds(s, ref, g) && g != "Default")
            && (!ok ==> t == s)
            && (ok ==> forall g :: Finds(s, ref, g) ==>
                  t == s.(groups := s.groups[g := s.groups[g].(revision := s.groups[g].revision + 1)]))
  {
    ResolvesWhatItFinds(s, ref);
    hide Resolve, Valid;
  }

  /** A port that is deleted is in no group; the other ports, and all ACLs, stay. */
  lemma DeletedPortIs(s: State, p: PortId)
    ensures var (t, ok) := PortDeleted(s, p);
            && (ok <==> p in s.ports) && (!ok ==> t == s)
            && (ok ==>
                  && t.ports == s.ports - {p} && t.groups.Keys == s.groups.Keys
                  && (forall g, q :: In(t, g, q) <==> In(s, g, q) && q != p)
                  && (forall g :: g in s.groups ==> t.groups[g].acls == s.groups[g].acls))
  {
  }

  // ---------------------------------------------------------------------------------------------
  // What stays over runs
  // ---------------------------------------------------------------------------------------------

  lemma SecuredKeepsGroups(s: State, f: Fresh)
    requires |f.dropIds| == 2 && |f.defaultIds| == 4
    ensures s.groups.Keys <= Secured(s, f).groups.Keys
  {
    hide DropAcls, DefaultAcls, Table;
  }

  lemma PortCallsKeepGroups(s: State, op: Op)
    requires Legal(s, op) && (op.AddPort? || op.UpdatePort?)
    ensures s.groups.Keys <= Step(s, op).0.groups.Keys
  {
    hide NewIds, NewUuid, Words, Join, Resolved, Resolvable, Secured, NewRecord;
    if op.AddPort? {
      SecuredKeepsGroups(s.(ports := s.ports[op.p := PortRow("", [])]), op.rows);
    } else {
      SecuredKeepsGroups(s, op.rows);
    }
  }

  lemma StepKeepsDefault(s: State, op: Op)
    requires Legal(s, op) && "Default" in s.groups
    ensures "Default" in Step(s, op).0.groups
  {
    if op.AddPort? || op.UpdatePort? {
      hide Step, Legal;
      PortCallsKeepGroups(s, op);
    } else {
      hide Table, RuleAcl, WithRemote, NewIds, NewUuid, EgressAcls, Unlike, HasRule;
    }
  }

  /** Once it is there, Default is never taken away, whatever the calls. */
  lemma {:induction false} DefaultStays(s: State, ops: seq<Op>)
    requires LegalRun(s, ops) && "Default" in s.groups
    ensures "Default" in Run(s, ops).groups
    decreases |ops|
  {
    hide Step;
    if ops != [] {
      StepKeepsDefault(s, ops[0]);
      DefaultStays(Step(s, ops[0]).0, ops[1..]);
    }
  }

  // ---------------------------------------------------------------------------------------------
  // Securing a port
  // ---------------------------------------------------------------------------------------------

  lemma ResolvedDefault(t: State, refs: set<string>)
    requires Valid(t) && "Default" in t.groups
    ensures "Default" in Resolved(t, refs) <==> "Default" in refs || t.groups["Default"].uuid in refs
  {
    forall r | r in refs
      ensures Resolve(t, r) == Some("Default") <==> r == "Default" || r == t.groups["Default"].uuid
    {
      ResolvesWhatItFinds(t, r);
      assert Finds(t, r, "Default") <==> r == "Default" || r == t.groups["Default"].uuid;
    }
    hide Resolve;
    if r :| r in refs && (r == "Default" || r == t.groups["Default"].uuid) {
      assert Resolve(t, r) == Some("Default");
    }
  }

  lemma UuidIsNoName(s: State, g: Name)
    requires Valid(s) && g in s.groups
    ensures s.groups[g].uuid !in s.groups
  {
  }

  lemma DefaultIsThere(s: State, p: PortId, mac: string, f: Fresh)
    requires Valid(s) && IsFresh(s, f) && PortUpdated(s, p, mac, true, Some(true), None, f).1
    ensures var t := PortUpdated(s, p, mac, true, Some(true), None, f).0;
            p in s.ports && p in t.ports && Valid(t) && "Default" in t.groups && t.groups["Default"].uuid != "Default"
  {
    assert p in s.ports;
    ActivatedKeeps(s, p, f, false);
    hide PortUpdated, Valid, IsFresh, Activated;
    var secured, t := PortUpdatedKeeps(s, p, mac, Some(true), None, f);
    UuidIsNoName(t, "Default");
  }

  lemma AsksForDefault(s: State, p: PortId)
    requires p in s.ports
    ensures Installed(s, p, Some(true), None) == {"Default"} - Had(s, p)
    ensures Removed(s, p, Some(true), None) == Had(s, p) - {"Default"}
    ensures RecordedAfter(s, p, Some(true), None) == if "Default" in Had(s, p) then {} else {"Default"}
  {
    hide Had;
  }

  /** Security turned on without a list of groups: the port is put into Default under its name and out of
      every other group that was recorded, and Default is what is recorded; where Default was recorded
      already, nothing is recorded any more. */
  lemma SecuringJoinsDefault(s: State, p: PortId, mac: string, f: Fresh)
    requires Valid(s) && IsFresh(s, f) && PortUpdated(s, p, mac, true, Some(true), None, f).1
    ensures var t := PortUpdated(s, p, mac, true, Some(true), None, f).0;
            && p in s.ports && p in t.ports && t.ports[p].portSecurity == [mac] && "Default" in t.groups
            && Members(Words(t.ports[p].record)) == (if "Default" in Had(s, p) then {} else {"Default"})
            && (In(t, "Default", p) <==>
                ("Default" in Had(s, p) ==> In(s, "Default", p)) && t.groups["Default"].uuid !in Had(s, p))
  {
    DefaultIsThere(s, p, mac, f);
    AsksForDefault(s, p);
    hide PortUpdated, Valid, IsFresh, Resolved, Had, In, Words, Installed, Removed, RecordedAfter, OnlyPort, Drops;
    UpdatedPortIs(s, p, mac, Some(true), None, f);
    var t := PortUpdated(s, p, mac, true, Some(true), None, f).0;
    ResolvedDefault(t, {"Default"} - Had(s, p));
    ResolvedDefault(t, Had(s, p) - {"Default"});
    assert "Default" != DROP_ALL;
  }

  // ---------------------------------------------------------------------------------------------
  // Additions that are refused
  // ---------------------------------------------------------------------------------------------

  /** A reference finds a group, or one of the two that are made for a secured port. */
  ghost predicate WillFind(s: State, f: Fresh, secure: bool, r: string) {
    || (exists g :: Finds(s, r, g))
    || (secure && (|| r == "Default" || r == "DropAll"
                   || (r == f.dropUuid && "DropAll" !in s.groups) || (r == f.defaultUuid && "Default" !in s.groups)))
  }

  lemma ProvisionedFinds(s: State, g: Name, u: Uuid, ids: seq<AclId>, acls: seq<Acl>, r: string)
    requires |ids| == |acls|
    ensures Resolve(Provisioned(s, g, u, ids, acls), r).Some? <==>
            Resolve(s, r).Some? || r == g || (r == u && g !in s.groups)
  {
    hide Table;
  }

  lemma ProvisionedHas(s: State, g: Name, u: Uuid, ids: seq<AclId>, acls: seq<Acl>, h: Name)
    requires |ids| == |acls|
    ensures h in Provisioned(s, g, u, ids, acls).groups <==> h in s.groups || h == g
  {
    hide Table;
  }

  lemma ActivatedFinds(s: State, p: PortId, f: Fresh, r: string)
    requires |f.dropIds| == 2 && |f.defaultIds| == 4 && Valid(s)
    ensures Resolve(Activated(s, p, f, true), r).Some? <==> WillFind(s, f, true, r)
  {
    ResolvesWhatItFinds(s, r);
    hide Valid, DropAcls, DefaultAcls, Provisioned, Resolve;
    ProvisionedFinds(s, DROP_ALL, f.dropUuid, f.dropIds, DropAcls(), r);
    var mid := Provisioned(s, DROP_ALL, f.dropUuid, f.dropIds, DropAcls());
    ProvisionedFinds(mid, DEFAULT, f.defaultUuid, f.defaultIds, DefaultAcls(), r);
    ProvisionedHas(s, DROP_ALL, f.dropUuid, f.dropIds, DropAcls(), DEFAULT);
  }

  lemma AskedAreFound(s: State, p: PortId, f: Fresh, secure: bool, refs: seq<string>)
    requires Valid(s) && p !in s.ports && |f.dropIds| == 2 && |f.defaultIds| == 4
    ensures var created := s.(ports := s.ports[p := PortRow("", [])]);
            Resolvable(if secure then Activated(created, p, f, true) else created, Members(refs)) <==>
            forall r :: r in refs ==> WillFind(s, f, secure, r)
  {
    var created := s.(ports := s.ports[p := PortRow("", [])]);
    NewPortValid(s, p);
    forall r
      ensures Resolve(if secure then Activated(created, p, f, true) else created, r).Some? <==>
              WillFind(s, f, secure, r)
    {
      ActivatedFinds(created, p, f, r);
      ResolvesWhatItFinds(created, r);
      assert forall g :: Finds(created, r, g) <==> Finds(s, r, g);
    }
    hide Activated, Resolve, WillFind, Valid;
  }

  /** A port is added exactly when it is new, its addresses can be had, and each group asked for is found or
      is one made for a secured port.  What is left otherwise is nothing, or the bare port when it was the
      addresses. */
  lemma AddedPortIff(s: State, p: PortId, mac: string, addressed: bool, network: bool, security: Option<bool>,
                     groups: Option<seq<string>>, f: Fresh)
    requires Valid(s) && |f.dropIds| == 2 && |f.defaultIds| == 4
    ensures var (t, ok) := PortAdded(s, p, mac, addressed, network, security, groups, f);
            var secure := if security.Some? then security.value else network;
            && (ok <==> && p !in s.ports && addressed
                        && (groups.Some? ==> forall r :: r in groups.value ==> WillFind(s, f, secure, r)))
            && (!ok ==> t == if p in s.ports || addressed then s else s.(ports := s.ports[p := PortRow("", [])]))
  {
    hide Activated, WillFind, Join, Valid, Resolvable, Resolved, Joined;
    if p !in s.ports {
      var secure := if security.Some? then security.value else network;
      AskedAreFound(s, p, f, secure, if groups.Some? then groups.value else if secure then [DEFAULT] else []);
      assert WillFind(s, f, true, "Default") by { DefaultWillBe(s, f); }
    }
  }

  lemma DefaultWillBe(s: State, f: Fresh)
    ensures WillFind(s, f, true, "Default")
  {
  }
}
