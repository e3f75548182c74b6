/** Two runs in which a caller makes a reserved group before the provider does: a group called DropAll that
    drops nothing, and one called Default whose ports cannot be reached. */
module PostedGroups {
  import opened Text
  import opened Matches
  import opened Acls
  import opened PortGroups
  import opened SecurityGroups
  import opened SecurityInvariants
  import opened SecurityRuns
  import opened SecurityRules
  import opened ReservedGroups
  import opened Verdicts

  // ---------------------------------------------------------------------------------------------
  // The runs
  // ---------------------------------------------------------------------------------------------

  function Post(name: string): Op {
    AddGroup(name, "g", "a", [0, 1])
  }

  function Secure(p: PortId, f: Fresh): Op {
    AddPort(p, "02:00", true, false, Some(true), None, f)
  }

  const FIRST: Fresh := Fresh("b", [2, 3], "c", [4, 5, 6, 7])
  const SECOND: Fresh := Fresh("d", [8, 9], "e", [10, 11, 12, 13])

  /** A group is posted under a reserved name, and two secured ports are added. */
  function PostedRun(name: string): seq<Op> {
    [Post(name), Secure(0, FIRST), Secure(1, SECOND)]
  }

  ghost predicate ReservedName(name: string) {
    name == DROP_ALL || name == DEFAULT
  }

  /** The tables use no more than the given uuids, the reserved names, and ACL ids below `n`. */
  ghost predicate Small(s: State, uuids: set<Uuid>, n: nat) {
    && s.names.Keys <= uuids && s.groups.Keys <= {DROP_ALL, DEFAULT}
    && (forall g: Name, id: AclId :: OwnsAcl(s, g, id) ==> id < n)
    && (forall p, r :: Recorded(s, p, r) ==> r == DEFAULT)
  }

  /** Ids that come after those below `n`, and two uuids of one letter that are not used. */
  ghost predicate Numbered(f: Fresh, uuids: set<Uuid>, n: nat) {
    && |f.dropUuid| == 1 && |f.defaultUuid| == 1 && f.dropUuid != f.defaultUuid && IsWord(f.dropUuid)
    && IsWord(f.defaultUuid)
    && f.dropUuid !in uuids && f.defaultUuid !in uuids
    && f.dropIds == [n, n + 1] && f.defaultIds == [n + 2, n + 3, n + 4, n + 5]
  }

  lemma SmallIsLegal(s: State, uuids: set<Uuid>, n: nat, f: Fresh)
    requires Small(s, uuids, n) && Numbered(f, uuids, n)
    ensures NeverSeen(s, f)
  {
    assert |DEFAULT| == 7 && |DROP_ALL| == 7;
    var ids := f.dropIds + f.defaultIds;
    assert ids == [n, n + 1, n + 2, n + 3, n + 4, n + 5];
    forall i, g | 0 <= i < |ids| && g in s.groups
      ensures ids[i] !in s.groups[g].acls
    {
      if ids[i] in s.groups[g].acls {
        assert OwnsAcl(s, g, ids[i]);
      }
    }
    forall u, p | p in s.ports && u in Words(s.ports[p].record)
      ensures u == DEFAULT
    {
      assert Recorded(s, p, u);
    }
  }

  lemma ProvisionedSmall(s: State, uuids: set<Uuid>, n: nat, g: Name, u: Uuid, ids: seq<AclId>, acls: seq<Acl>, m: nat)
    requires Small(s, uuids, n) && |ids| == |acls| && DistinctIds(ids) && ReservedName(g) && n <= m
    requires forall i :: 0 <= i < |ids| ==> ids[i] < m
    ensures Small(Provisioned(s, g, u, ids, acls), uuids + {u}, m)
  {
    TableHolds(ids, acls);
    hide Table, Words;
    var t := Provisioned(s, g, u, ids, acls);
    forall h: Name, id: AclId | OwnsAcl(t, h, id)
      ensures id < m
    {
      if h != g || g in s.groups {
        assert OwnsAcl(s, h, id);
      }
    }
    forall p, r | Recorded(t, p, r)
      ensures r == DEFAULT
    {
      assert Recorded(s, p, r);
    }
  }

  lemma PostSmall(name: string)
    requires ReservedName(name)
    ensures Legal(EMPTY, Post(name)) && Small(Step(EMPTY, Post(name)).0, {"a"}, 2) && Step(EMPTY, Post(name)).1
    ensures Step(EMPTY, Post(name)).0 == Provisioned(EMPTY, name, "a", [0, 1], EgressAcls(name))
    ensures Step(EMPTY, Post(name)).0.ports == map[]
  {
    hide OpenAcl, Table;
    assert |DEFAULT| == 7 && |DROP_ALL| == 7;
    ProvisionedSmall(EMPTY, {}, 0, name, "a", [0, 1], EgressAcls(name), 2);
    assert {} + {"a"} == {"a"};
  }

  lemma SecuredSmall(s: State, uuids: set<Uuid>, n: nat, f: Fresh)
    requires Small(s, uuids, n) && Numbered(f, uuids, n)
    ensures Small(Secured(s, f), uuids + {f.dropUuid} + {f.defaultUuid}, n + 6)
  {
    hide Small, DropAcls, DefaultAcls;
    DropAclsOk();
    DefaultAclsOk();
    ProvisionedSmall(s, uuids, n, DROP_ALL, f.dropUuid, f.dropIds, DropAcls(), n + 2);
    ProvisionedSmall(Provisioned(s, DROP_ALL, f.dropUuid, f.dropIds, DropAcls()), uuids + {f.dropUuid}, n + 2,
                     DEFAULT, f.defaultUuid, f.defaultIds, DefaultAcls(), n + 6);
  }

  /** `t` has the groups of `s`, with the same ACLs. */
  ghost predicate SameAcls(s: State, t: State) {
    t.names == s.names && t.groups.Keys == s.groups.Keys && SameRules(s, t)
  }

  lemma JoinedSameAcls(s: State, gs: set<Name>, p: PortId)
    ensures SameAcls(s, Joined(s, gs, p))
  {
  }

  lemma SameAclsChain(s: State, mid: State, t: State)
    requires SameAcls(s, mid) && SameAcls(mid, t)
    ensures SameAcls(s, t)
  {
  }

  lemma SecureStep(s: State, p: PortId, f: Fresh, active: State)
    requires |f.dropIds| == 2 && |f.defaultIds| == 4 && p !in s.ports
    requires active == Activated(s.(ports := s.ports[p := PortRow("", [])]), p, f, true)
    requires Resolvable(active, {DEFAULT})
    ensures var (t, ok) := PortAdded(s, p, "02:00", true, false, Some(true), None, f);
            var joined := Joined(active, Resolved(active, {DEFAULT}), p);
            ok && t.groups == joined.groups && t.names == joined.names
  {
    hide Activated, Joined, Resolved, Resolvable, Join;
    assert Members([DEFAULT]) == {DEFAULT};
  }

  lemma ActivatedSameAcls(s: State, p: PortId, f: Fresh)
    requires |f.dropIds| == 2 && |f.defaultIds| == 4
    ensures SameAcls(Secured(s, f), Activated(s, p, f, true))
  {
    hide Secured, Joined, SameAcls;
    JoinedSameAcls(Secured(s, f), {DROP_ALL} + {DEFAULT}, p);
  }

  lemma ActivatedResolves(s: State, p: PortId, f: Fresh)
    requires Valid(s) && NeverSeen(s, f) && p !in s.ports
    ensures Resolvable(Activated(s.(ports := s.ports[p := PortRow("", [])]), p, f, true), {DEFAULT})
  {
    var created := s.(ports := s.ports[p := PortRow("", [])]);
    NewPortValid(s, p);
    hide Valid, Activated;
    ActivatedKeeps(created, p, f, true);
    DefaultResolves(Activated(created, p, f, true));
  }

  /** A secured port added without a list of groups. */
  lemma SecureTables(s: State, p: PortId, f: Fresh)
    requires Valid(s) && NeverSeen(s, f) && p !in s.ports
    ensures Step(s, Secure(p, f)).1 && SameAcls(Secured(s, f), Step(s, Secure(p, f)).0)
  {
    ActivatedResolves(s, p, f);
    hide Valid, Secured, Activated, Joined, Resolved, Resolvable, SameAcls, PortAdded, NewIds, NewUuid, Unrecorded;
    var created := s.(ports := s.ports[p := PortRow("", [])]);
    var active := Activated(created, p, f, true);
    var joined := Joined(active, Resolved(active, {DEFAULT}), p);
    SecureStep(s, p, f, active);
    SecuredCreated(s, created, f);
    ActivatedSameAcls(created, p, f);
    JoinedSameAcls(active, Resolved(active, {DEFAULT}), p);
    SameAclsChain(Secured(s, f), Secured(created, f), active);
    SameAclsChain(Secured(s, f), active, joined);
    OtherPorts(Secured(s, f), joined, Step(s, Secure(p, f)).0);
  }

  lemma OtherPorts(s: State, mid: State, t: State)
    requires SameAcls(s, mid) && t.groups == mid.groups && t.names == mid.names
    ensures SameAcls(s, t)
  {
  }

  lemma SecuredCreated(s: State, created: State, f: Fresh)
    requires |f.dropIds| == 2 && |f.defaultIds| == 4 && created.groups == s.groups && created.names == s.names
    ensures SameAcls(Secured(s, f), Secured(created, f))
  {
    hide Table, DropAcls, DefaultAcls;
  }

  lemma SecureSmall(s: State, uuids: set<Uuid>, n: nat, p: PortId, f: Fresh)
    requires Valid(s) && Small(s, uuids, n) && Numbered(f, uuids, n) && NeverSeen(s, f) && p !in s.ports
    ensures var (t, ok) := Step(s, Secure(p, f));
            && ok && NewPortIs(s, t, p, [DEFAULT], true, "02:00") && t.ports.Keys == s.ports.Keys + {p}
            && SameAcls(Secured(s, f), t) && Small(t, uuids + {f.dropUuid} + {f.defaultUuid}, n + 6)
  {
    var t := Step(s, Secure(p, f)).0;
    SecureTables(s, p, f);
    AddedPortIs(s, p, "02:00", false, Some(true), None, f);
    SecuredSmall(s, uuids, n, f);
    hide Valid, PortAdded, NeverSeen, Secured;
    StaysSmall(s, Secured(s, f), t, uuids, uuids + {f.dropUuid} + {f.defaultUuid}, n, n + 6, p);
  }

  lemma StaysSmall(s: State, base: State, t: State, uuids: set<Uuid>, more: set<Uuid>, n: nat, m: nat, p: PortId)
    requires Small(s, uuids, n) && Small(base, more, m) && SameAcls(base, t)
    requires NewPortIs(s, t, p, [DEFAULT], true, "02:00")
    ensures Small(t, more, m)
  {
    hide Words;
    forall g: Name, id: AclId | OwnsAcl(t, g, id)
      ensures id < m
    {
      assert OwnsAcl(base, g, id);
    }
    forall q, r | Recorded(t, q, r)
      ensures r == DEFAULT
    {
      if q != p {
        assert Recorded(s, q, r);
      }
    }
  }

  /** A secured port added to small tables. */
  lemma OneSecured(s: State, uuids: set<Uuid>, n: nat, p: PortId, f: Fresh) returns (t: State)
    requires Valid(s) && Small(s, uuids, n) && Numbered(f, uuids, n) && p !in s.ports
    ensures Legal(s, Secure(p, f)) && t == Step(s, Secure(p, f)).0 && Valid(t)
    ensures Small(t, uuids + {f.dropUuid} + {f.defaultUuid}, n + 6) && SameAcls(Secured(s, f), t)
    ensures NewPortIs(s, t, p, [DEFAULT], true, "02:00") && t.ports.Keys == s.ports.Keys + {p}
  {
    SmallIsLegal(s, uuids, n, f);
    hide PortAdded, Small, NewPortIs, SameAcls, Secured, Valid, Numbered, NewIds, NewUuid, Unrecorded;
    t := Step(s, Secure(p, f)).0;
    StepValid(s, Secure(p, f));
    SecureSmall(s, uuids, n, p, f);
  }

  lemma FirstIsNumbered()
    ensures Numbered(FIRST, {"a"}, 2) && Numbered(SECOND, {"a"} + {FIRST.dropUuid} + {FIRST.defaultUuid}, 8)
  {
  }

  /** The states the run goes through. */
  lemma PostedStates(name: string) returns (a: State, b: State, c: State)
    requires ReservedName(name)
    ensures LegalRun(EMPTY, PostedRun(name)) && c == Run(EMPTY, PostedRun(name))
    ensures a == Provisioned(EMPTY, name, "a", [0, 1], EgressAcls(name))
    ensures NeverSeen(a, FIRST) && SameAcls(Secured(a, FIRST), b) && NeverSeen(b, SECOND)
    ensures SameAcls(Secured(b, SECOND), c)
    ensures NewPortIs(a, b, 0, [DEFAULT], true, "02:00") && NewPortIs(b, c, 1, [DEFAULT], true, "02:00")
  {
    EmptyIsWellKept();
    PostSmall(name);
    FirstIsNumbered();
    StepValid(EMPTY, Post(name));
    a := Step(EMPTY, Post(name)).0;
    hide Step, Small, NewPortIs, SameAcls, Secured, Provisioned, Numbered, FIRST, SECOND, Valid, EgressAcls;
    b := OneSecured(a, {"a"}, 2, 0, FIRST);
    c := OneSecured(b, {"a"} + {FIRST.dropUuid} + {FIRST.defaultUuid}, 8, 1, SECOND);
    RunOfThree(Post(name), Secure(0, FIRST), Secure(1, SECOND), a, b, c);
  }

  lemma RunOfThree(o1: Op, o2: Op, o3: Op, a: State, b: State, c: State)
    requires Legal(EMPTY, o1) && a == Step(EMPTY, o1).0 && Legal(a, o2) && b == Step(a, o2).0
    requires Legal(b, o3) && c == Step(b, o3).0
    ensures LegalRun(EMPTY, [o1, o2, o3]) && Run(EMPTY, [o1, o2, o3]) == c
  {
    hide Step, Legal;
    assert [o1, o2, o3][1..] == [o2, o3] && [o2, o3][1..] == [o3] && [o3][1..] == [];
    assert LegalRun(c, []) && Run(c, []) == c;
    assert LegalRun(b, [o3]) && Run(b, [o3]) == c;
    assert LegalRun(a, [o2, o3]) && Run(a, [o2, o3]) == c;
  }

  // ---------------------------------------------------------------------------------------------
  // A DropAll that drops nothing
  // ---------------------------------------------------------------------------------------------

  lemma SecuredLeaves(s: State, f: Fresh, g: Name)
    requires |f.dropIds| == 2 && |f.defaultIds| == 4 && g in s.groups
    ensures g in Secured(s, f).groups && Secured(s, f).groups[g] == s.groups[g]
  {
    hide Table, DropAcls, DefaultAcls;
  }

  /** Two ports are secured and in DropAll, which a caller made before: every packet is admitted at both. */
  lemma PostedDropAllAdmits(addresses: map<PortId, set<Address>>, covers: (string, Address) -> bool, d: Direction,
                            p: Packet)
    requires LocalPort(d, p) == 0 || LocalPort(d, p) == 1
    ensures LegalRun(EMPTY, PostedRun(DROP_ALL))
    ensures var s := Run(EMPTY, PostedRun(DROP_ALL));
            && LocalPort(d, p) in s.ports && s.ports[LocalPort(d, p)].portSecurity != []
            && In(s, DROP_ALL, LocalPort(d, p)) && Admitted(s, Seen(s, addresses, covers), d, p)
  {
    var a, b, c := PostedStates(DROP_ALL);
    hide Secured, Admitted, Seen, Run, LegalRun, Words;
    assert !Guarded(a, d) by { PostedUnguarded(d); }
    SecuredLeaves(a, FIRST, DROP_ALL);
    SecuredLeaves(b, SECOND, DROP_ALL);
    assert !Guarded(c, d);
    ReachableVerdict(PostedRun(DROP_ALL), addresses, covers, d, p);
  }

  lemma PostedUnguarded(d: Direction)
    ensures !Guarded(Provisioned(EMPTY, DROP_ALL, "a", [0, 1], EgressAcls(DROP_ALL)), d)
  {
    hide OpenAcl, Table, DropAcl;
    ReservedAreWords();
    EgressAclsPlain(DROP_ALL);
    TableContains([0, 1], EgressAcls(DROP_ALL), Group("a", {}, Table([0, 1], EgressAcls(DROP_ALL)), 1), DropAcl(d));
    assert DropAcl(d) !in EgressAcls(DROP_ALL) by { DropIsNotEgress(d); }
  }

  lemma DropIsNotEgress(d: Direction)
    ensures DropAcl(d) !in EgressAcls(DROP_ALL)
  {
    hide MatchText;
    RuleAclAllows(EgressRule(IPv4), DROP_ALL);
    RuleAclAllows(EgressRule(IPv6), DROP_ALL);
  }

  // ---------------------------------------------------------------------------------------------
  // A Default that lets nothing in
  // ---------------------------------------------------------------------------------------------

  /** No ACL lets a packet in. */
  ghost predicate Closed(s: State) {
    forall g, id :: OwnsAcl(s, g, id) && s.groups[g].acls[id].action == Allow ==>
      s.groups[g].acls[id].direction == Egress
  }

  predicate ClosedAcls(acls: seq<Acl>) {
    forall k :: 0 <= k < |acls| && acls[k].action == Allow ==> acls[k].direction == Egress
  }

  lemma ProvisionedClosed(s: State, g: Name, u: Uuid, ids: seq<AclId>, acls: seq<Acl>)
    requires Closed(s) && |ids| == |acls| && DistinctIds(ids) && (g in s.groups || ClosedAcls(acls))
    ensures Closed(Provisioned(s, g, u, ids, acls))
  {
    TableHolds(ids, acls);
    hide Table;
    var t := Provisioned(s, g, u, ids, acls);
    forall h, id | OwnsAcl(t, h, id) && t.groups[h].acls[id].action == Allow
      ensures t.groups[h].acls[id].direction == Egress
    {
      if h != g || g in s.groups {
        assert OwnsAcl(s, h, id);
      }
    }
  }

  lemma SecuredClosed(s: State, f: Fresh)
    requires Closed(s) && DEFAULT in s.groups && IsFresh(s, f)
    ensures Closed(Secured(s, f))
  {
    hide Closed, DropAcls, DefaultAcls;
    SplitIds(s, f);
    DropAclsOk();
    DefaultAclsOk();
    assert ClosedAcls(DropAcls()) by { DropAclsClosed(); }
    ProvisionedClosed(s, DROP_ALL, f.dropUuid, f.dropIds, DropAcls());
    ProvisionedClosed(Provisioned(s, DROP_ALL, f.dropUuid, f.dropIds, DropAcls()), DEFAULT, f.defaultUuid, f.defaultIds,
                      DefaultAcls());
  }

  lemma DropAclsClosed()
    ensures ClosedAcls(DropAcls())
  {
    hide MatchText;
  }

  lemma EgressAclsClosed(g: Name)
    ensures |EgressAcls(g)| == 2 && ClosedAcls(EgressAcls(g))
  {
    hide MatchText, HeadAtoms;
  }

  lemma SameAclsClosed(s: State, t: State)
    requires Closed(s) && SameAcls(s, t)
    ensures Closed(t)
  {
    forall g, id | OwnsAcl(t, g, id) && t.groups[g].acls[id].action == Allow
      ensures t.groups[g].acls[id].direction == Egress
    {
      assert OwnsAcl(s, g, id);
    }
  }

  /** The state the run ends in. */
  lemma PostedDefaultEnd()
    ensures LegalRun(EMPTY, PostedRun(DEFAULT))
    ensures var s := Run(EMPTY, PostedRun(DEFAULT));
            && Closed(s) && Guarded(s, Ingress)
            && In(s, DROP_ALL, 0) && In(s, DROP_ALL, 1) && In(s, DEFAULT, 0) && In(s, DEFAULT, 1)
  {
    var a, b, c := PostedStates(DEFAULT);
    PostedDefaultClosed();
    hide Closed, Secured, Run, LegalRun, Words, SameAcls, Provisioned, NeverSeen, FIRST, SECOND, Guarded, PostedRun;
    StaysClosed(a, b, FIRST);
    StaysClosed(b, c, SECOND);
    assert In(b, DROP_ALL, 0) && In(b, DEFAULT, 0) && In(c, DROP_ALL, 1) && In(c, DEFAULT, 1);
    assert In(c, DROP_ALL, 0) && In(c, DEFAULT, 0);
    PostedDefaultGuarded();
  }

  /** Two ports are secured and in a Default that a caller made before: what one sends to the other is
      dropped there. */
  lemma PostedDefaultDrops(addresses: map<PortId, set<Address>>, covers: (string, Address) -> bool, p: Packet)
    requires p.inport == 0 && p.outport == 1 && IsIp(p)
    ensures LegalRun(EMPTY, PostedRun(DEFAULT))
    ensures var s := Run(EMPTY, PostedRun(DEFAULT));
            BothIn(s, p) && !Admitted(s, Seen(s, addresses, covers), Ingress, p)
  {
    PostedDefaultEnd();
    hide Closed, Run, LegalRun, Guarded, PostedRun, Admitted, Seen;
    var s := Run(EMPTY, PostedRun(DEFAULT));
    ReachableVerdict(PostedRun(DEFAULT), addresses, covers, Ingress, p);
    ClosedAllowsNone(s, Seen(s, addresses, covers), p);
  }

  lemma StaysClosed(s: State, t: State, f: Fresh)
    requires Closed(s) && DEFAULT in s.groups && NeverSeen(s, f) && SameAcls(Secured(s, f), t)
    ensures Closed(t) && DEFAULT in t.groups
  {
    SecuredClosed(s, f);
    SecuredLeaves(s, f, DEFAULT);
    hide Closed, Secured;
    SameAclsClosed(Secured(s, f), t);
  }

  lemma PostedDefaultClosed()
    ensures |EgressAcls(DEFAULT)| == 2
    ensures var s := Provisioned(EMPTY, DEFAULT, "a", [0, 1], EgressAcls(DEFAULT)); Closed(s) && DEFAULT in s.groups
  {
    EgressAclsClosed(DEFAULT);
    assert Closed(EMPTY);
    ProvisionedClosed(EMPTY, DEFAULT, "a", [0, 1], EgressAcls(DEFAULT));
  }

  lemma ClosedAllowsNone(s: State, net: Network, p: Packet)
    requires Closed(s)
    ensures forall g, id :: !Allowed(s, net, Ingress, p, g, id)
  {
    hide Selects;
  }

  lemma PostedDefaultGuarded()
    requires LegalRun(EMPTY, PostedRun(DEFAULT)) && DROP_ALL in Run(EMPTY, PostedRun(DEFAULT)).groups
    ensures Guarded(Run(EMPTY, PostedRun(DEFAULT)), Ingress)
  {
    ReservedAreWords();
    SpareThree(Post(DEFAULT), Secure(0, FIRST), Secure(1, SECOND), DROP_ALL, DropAcl(Ingress));
    hide Run, LegalRun, SparingRun;
    GuardedIfSpared(PostedRun(DEFAULT), Ingress);
  }

  lemma SpareThree(o1: Op, o2: Op, o3: Op, g: Name, acl: Acl)
    requires LegalRun(EMPTY, [o1, o2, o3])
    requires o1.AddGroup? && o1.name != g && o2.AddPort? && o3.AddPort?
    ensures SparingRun(EMPTY, [o1, o2, o3], g, acl)
  {
    hide Step, NewIds, NewUuid, Unrecorded;
    var a := Step(EMPTY, o1).0;
    var b := Step(a, o2).0;
    assert [o1, o2, o3][1..] == [o2, o3] && [o2, o3][1..] == [o3] && [o3][1..] == [];
    assert LegalRun(a, [o2, o3]) && LegalRun(b, [o3]);
    assert SparingRun(b, [o3], g, acl);
    assert SparingRun(a, [o2, o3], g, acl);
  }
}
