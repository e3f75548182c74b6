/** The port and security group calls, command by command: provider/neutron/neutron_api.py over
    provider/ovndb/ovn_north.py and provider/ovndb/ovn_security_groups.py.  Every method is proved to
    do to the tables what SecurityGroups describes as one step. */
module SecurityGroupApi {
  import opened Text
  import opened Matches
  import opened Acls
  import opened PortGroups
  import opened SecurityGroups
  import opened SecurityInvariants
  import opened SecurityRuns
  import opened SecurityRules

  // ---------------------------------------------------------------------------------------------
  // Queued pieces
  // ---------------------------------------------------------------------------------------------

  function Then(s: Option<State>, c: Command): Option<State> {
    if s == None then None else Apply(s.value, c)
  }

  function Joining(s: State, refs: set<string>, p: PortId): Option<State> {
    if Resolvable(s, refs) then Some(Joined(s, Resolved(s, refs), p)) else None
  }

  function Leaving(s: State, refs: set<string>, p: PortId): Option<State> {
    if Resolvable(s, refs) then Some(Left(s, Resolved(s, refs), p)) else None
  }

  lemma ResolvedMore(s: State, refs: set<string>, r: string)
    ensures Resolvable(s, refs + {r}) <==> Resolvable(s, refs) && Resolve(s, r).Some?
    ensures Resolve(s, r).Some? ==> Resolved(s, refs + {r}) == Resolved(s, refs) + {Resolve(s, r).value}
    ensures Resolvable(s, {}) && Resolved(s, {}) == {}
  {
    hide Resolve;
    assert r in refs + {r};
  }

  lemma JoinOne(s: State, gs: set<Name>, p: PortId, r: string)
    requires Valid(s) && p in s.ports
    ensures Apply(Joined(s, gs, p), PgAddPorts(r, p)) ==
            if Resolve(s, r) == None then None else Some(Joined(s, gs + {Resolve(s, r).value}, p))
  {
    assert Resolve(Joined(s, gs, p), r) == Resolve(s, r);
    if Resolve(s, r).Some? {
      var g := Resolve(s, r).value;
      assert Apply(Joined(s, gs, p), PgAddPorts(r, p)).value.groups == Joined(s, gs + {g}, p).groups;
    }
  }

  lemma LeaveOne(s: State, gs: set<Name>, p: PortId, r: string)
    requires Valid(s)
    ensures Apply(Left(s, gs, p), PgDelPorts(r, p)) ==
            if Resolve(s, r) == None then None else Some(Left(s, gs + {Resolve(s, r).value}, p))
  {
    assert Resolve(Left(s, gs, p), r) == Resolve(s, r);
    if Resolve(s, r).Some? {
      var g := Resolve(s, r).value;
      assert forall ports: set<PortId> :: ports - {p} - {p} == ports - {p};
      assert Apply(Left(s, gs, p), PgDelPorts(r, p)).value.groups == Left(s, gs + {g}, p).groups;
    }
  }

  lemma NoneMoved(s: State, p: PortId)
    ensures Joined(s, {}, p) == s && Left(s, {}, p) == s
  {
    assert Joined(s, {}, p).groups == s.groups;
    assert Left(s, {}, p).groups == s.groups;
  }

  lemma JoiningMore(s: State, refs: set<string>, p: PortId, r: string)
    requires Valid(s) && p in s.ports
    ensures Then(Joining(s, refs, p), PgAddPorts(r, p)) == Joining(s, refs + {r}, p)
    ensures Joining(s, {}, p) == Some(s)
  {
    hide Resolve, Resolvable, Resolved, Joined, Apply, Valid;
    ResolvedMore(s, refs, r);
    JoinOne(s, Resolved(s, refs), p, r);
    NoneMoved(s, p);
  }

  lemma LeavingMore(s: State, refs: set<string>, p: PortId, r: string)
    requires Valid(s)
    ensures Then(Leaving(s, refs, p), PgDelPorts(r, p)) == Leaving(s, refs + {r}, p)
    ensures Leaving(s, {}, p) == Some(s)
  {
    hide Resolve, Resolvable, Resolved, Left, Apply, Valid;
    ResolvedMore(s, refs, r);
    LeaveOne(s, Resolved(s, refs), p, r);
    NoneMoved(s, p);
  }

  /** The state after making a group and the first `k` of its ACLs. */
  lemma ProvisionMore(s: State, g: Name, u: Uuid, ids: seq<AclId>, acls: seq<Acl>, k: nat)
    requires Valid(s) && g !in s.groups && g !in s.names && g != u && u !in s.names && k < |ids| == |acls|
    requires DistinctIds(ids) && DistinctRules(acls)
    ensures Apply(Provisioned(s, g, u, ids[..k], acls[..k]), PgAclAdd(g, ids[k], acls[k])) ==
            Some(Provisioned(s, g, u, ids[..k + 1], acls[..k + 1]))
  {
    hide SameRule, Table, DistinctRules;
    var m := Provisioned(s, g, u, ids[..k], acls[..k]);
    assert m == State(s.ports, s.groups[g := Group(u, {}, Table(ids[..k], acls[..k]), 1)], s.names[u := g]);
    assert Resolve(m, g) == Some(g);
    NextAclIsNew(ids, acls, k, m.groups[g]);
    TableMore(ids, acls, k);
    var more := Group(u, {}, Table(ids[..k + 1], acls[..k + 1]), 1);
    assert m.groups[g := more] == s.groups[g := more];
  }

  lemma NextAclIsNew(ids: seq<AclId>, acls: seq<Acl>, k: nat, row: Group)
    requires k < |ids| == |acls| && DistinctIds(ids) && DistinctRules(acls) && row.acls == Table(ids[..k], acls[..k])
    ensures !HasRule(row, acls[k])
  {
    hide SameRule, Table;
    TableHolds(ids[..k], acls[..k]);
    forall id | id in row.acls
      ensures !SameRule(row.acls[id], acls[k])
    {
      var j :| 0 <= j < k && ids[..k][j] == id;
      assert row.acls[id] == acls[..k][j] == acls[j];
    }
  }

  lemma TableMore(ids: seq<AclId>, acls: seq<Acl>, k: nat)
    requires k < |ids| == |acls|
    ensures Table(ids[..k + 1], acls[..k + 1]) == Table(ids[..k], acls[..k])[ids[k] := acls[k]]
  {
    assert ids[..k + 1][..k] == ids[..k] && acls[..k + 1][..k] == acls[..k];
  }

  lemma ProvisionStart(s: State, g: Name, u: Uuid, ids: seq<AclId>, acls: seq<Acl>)
    requires |ids| == |acls|
    ensures g !in s.groups ==> Apply(s, PgAdd(g, u)) == Some(Provisioned(s, g, u, ids[..0], acls[..0]))
    ensures g in s.groups ==> Provisioned(s, g, u, ids, acls) == s
  {
    assert Table(ids[..0], acls[..0]) == map[];
  }

  lemma ReservedAclsDiffer()
    ensures |DropAcls()| == 2 && DistinctRules(DropAcls()) && |DefaultAcls()| == 4 && DistinctRules(DefaultAcls())
  {
    hide Shaped, DropAcls, DefaultAcls;
    DropAclsOk();
    DefaultAclsOk();
  }

  lemma FreshIdsDiffer(s: State, f: Fresh)
    requires IsFresh(s, f)
    ensures DistinctIds(f.dropIds) && DistinctIds(f.defaultIds)
  {
    SplitIds(s, f);
  }

  /** Making a group commutes with joining another. */
  lemma ProvisionAfterJoin(s: State, drop: Name, p: PortId, g: Name, u: Uuid, ids: seq<AclId>, acls: seq<Acl>)
    requires g != drop && |ids| == |acls|
    ensures Provisioned(Joined(s, {drop}, p), g, u, ids, acls) == Joined(Provisioned(s, g, u, ids, acls), {drop}, p)
  {
    hide Table;
    assert Provisioned(Joined(s, {drop}, p), g, u, ids, acls).groups ==
           Joined(Provisioned(s, g, u, ids, acls), {drop}, p).groups;
  }

  /** DropAll made, and the port put into it. */
  lemma DropAllStage(s: State, p: PortId, f: Fresh)
    requires Valid(s) && IsFresh(s, f) && p in s.ports
    ensures var s1 := Provisioned(s, DROP_ALL, f.dropUuid, f.dropIds, DropAcls());
            var s2 := Joined(s1, {DROP_ALL}, p);
            && Apply(s1, PgAddPorts(DROP_ALL, p)) == Some(s2) && Valid(s2)
            && (DEFAULT in s2.groups <==> DEFAULT in s.groups) && f.defaultUuid !in s2.names && DEFAULT != f.defaultUuid
            && DROP_ALL !in s.names && DROP_ALL != f.dropUuid && f.dropUuid !in s.names
  {
    hide DropAcls, NewIds, Table;
    ReservedAclsDiffer();
    ReservedAreWords();
    ProvisionedValid(s, DROP_ALL, f.dropUuid, f.dropIds, DropAcls());
    ProvisionedKeeps(s, DROP_ALL, f.dropUuid, f.dropIds, DropAcls());
    var s1 := Provisioned(s, DROP_ALL, f.dropUuid, f.dropIds, DropAcls());
    JoinedKeeps(s1, {DROP_ALL}, p);
    JoinFound(s1, {}, p, DROP_ALL);
  }

  /** Adding the port to a group that is there, under its name. */
  lemma JoinFound(s: State, gs: set<Name>, p: PortId, g: Name)
    requires Valid(s) && p in s.ports && g in s.groups && g !in s.names
    ensures Apply(Joined(s, gs, p), PgAddPorts(g, p)) == Some(Joined(s, gs + {g}, p))
    ensures gs == {} ==> Apply(s, PgAddPorts(g, p)) == Some(Joined(s, {g}, p))
  {
    hide Apply, Joined, Valid;
    JoinOne(s, gs, p, g);
    NoneMoved(s, p);
    assert {} + {g} == {g};
  }

  /** Default made after that, and the port put into it when asked. */
  lemma DefaultStage(s: State, p: PortId, f: Fresh)
    requires Valid(s) && IsFresh(s, f) && p in s.ports
    ensures var s2 := Joined(Provisioned(s, DROP_ALL, f.dropUuid, f.dropIds, DropAcls()), {DROP_ALL}, p);
            var s3 := Provisioned(s2, DEFAULT, f.defaultUuid, f.defaultIds, DefaultAcls());
            && |DropAcls()| == 2 && |DefaultAcls()| == 4
            && s3 == Activated(s, p, f, false)
            && Apply(s3, PgAddPorts(DEFAULT, p)) == Some(Activated(s, p, f, true))
  {
    hide DropAcls, DefaultAcls, Provisioned, Joined, Valid, NewIds, Apply;
    ReservedAclsDiffer();
    ReservedAreWords();
    var s1 := Provisioned(s, DROP_ALL, f.dropUuid, f.dropIds, DropAcls());
    ProvisionAfterJoin(s1, DROP_ALL, p, DEFAULT, f.defaultUuid, f.defaultIds, DefaultAcls());
    SecuredKeeps(s, f);
    assert {DROP_ALL} + {} == {DROP_ALL};
    ReservedUnnamed(Secured(s, f));
    JoinFound(Secured(s, f), {DROP_ALL}, p, DEFAULT);
  }

  lemma ReservedUnnamed(s: State)
    requires Valid(s)
    ensures DEFAULT !in s.names && DROP_ALL !in s.names
  {
  }

  /** Adding an ACL to a group and then writing its revision. */
  lemma AclThenRevision(s: State, g: Name, id: AclId, acl: Acl)
    requires Valid(s) && g in s.groups
    ensures Apply(s, PgAclAdd(s.groups[g].uuid, id, acl)).Some? <==> !HasRule(s.groups[g], acl)
    ensures var u := s.groups[g].uuid;
            Then(Apply(s, PgAclAdd(u, id, acl)), SetRevision(u, s.groups[g].revision + 1)) ==
            if HasRule(s.groups[g], acl) then None
            else Some(WithGroup(s, g, Bumped(s.groups[g].(acls := s.groups[g].acls[id := acl]))))
  {
    hide HasRule;
    var row := s.groups[g];
    var u := row.uuid;
    FoundByUuid(s, g);
    if !HasRule(row, acl) {
      var added := row.(acls := row.acls[id := acl]);
      var m := WithGroup(s, g, added);
      assert Apply(s, PgAclAdd(u, id, acl)) == Some(m);
      assert m.groups[g] == added && m.groups[g := Bumped(added)] == s.groups[g := Bumped(added)];
      assert Resolve(m, u) == Some(g);
    }
  }

  /** The strings of a match, joined, make the ACL of the rule. */
  lemma SpelledAcl(rule: Rule, g: Name, parts: Option<seq<string>>)
    requires parts.Some? <==> CompiledAtoms(rule, g).Some?
    requires parts.Some? ==> parts.value == AtomTexts(CompiledAtoms(rule, g).value)
    ensures RuleAcl(rule, g) == if parts == None then None
                                else Some(Acl(rule.direction, ALLOW_PRIORITY, Join(parts.value, SEPARATOR), Allow, g))
  {
    hide CompiledAtoms, Join, AtomTexts;
  }

  /** Deleting an ACL by what it says and then writing the revision of its group. */
  lemma DeletionThenRevision(s: State, h: Name, id: AclId)
    requires Valid(s) && OwnsAcl(s, h, id)
    ensures var acl := s.groups[h].acls[id];
            var c := PgAclDel(acl.owner, acl.direction, acl.priority, acl.text);
            var g := Resolve(s, acl.owner);
            if g == None then Apply(s, c) == None && RuleRemoved(s, h, id) == (s, false)
            else
              && g.value in s.groups && Apply(s, c).Some? && Resolve(Apply(s, c).value, acl.owner) == g
              && g.value in Apply(s, c).value.groups
              && Apply(s, c).value.groups[g.value].revision == s.groups[g.value].revision
              && Apply(Apply(s, c).value, SetRevision(acl.owner, s.groups[g.value].revision + 1)) ==
                 Some(RuleRemoved(s, h, id).0)
              && RuleRemoved(s, h, id).1
  {
    hide Unlike;
    var acl := s.groups[h].acls[id];
    var found := Resolve(s, acl.owner);
    FoundIsThere(s, acl.owner);
    if found.Some? {
      var g := found.value;
      var row := s.groups[g];
      var said := Acl(acl.direction, acl.priority, acl.text, Allow, "");
      SaysTheSame(row.acls, acl, said);
      var kept := Unlike(row.acls, acl);
      var m := WithGroup(s, g, row.(acls := kept));
      assert Apply(s, PgAclDel(acl.owner, acl.direction, acl.priority, acl.text)) == Some(m);
      assert m.groups[g := Bumped(row.(acls := kept))] == s.groups[g := Bumped(row.(acls := kept))];
    }
  }

  lemma SaysTheSame(acls: map<AclId, Acl>, a: Acl, b: Acl)
    requires SameRule(a, b)
    ensures Unlike(acls, a) == Unlike(acls, b)
  {
  }

  lemma TakenFails(s: State, g: Name, u: Uuid)
    requires g in s.groups
    ensures Apply(s, PgAdd(g, u)) == None
  {
  }

  lemma NewUuidUnnamed(s: State, u: Uuid, g: Name)
    requires Valid(s) && NewUuid(s, u)
    ensures u !in s.names
  {
  }

  lemma EmptyCommit(s: State)
    ensures Commit(s, []) == Some(s)
  {
  }

  /** The last commands of an addition: security column, groups, record. */
  lemma AddedPieces(active: State, p: PortId, refs: seq<string>, value: seq<string>)
    requires Valid(active) && p in active.ports
    ensures var secured := Apply(active, SetPortSecurity(p, value));
            && secured.Some? && Valid(secured.value) && p in secured.value.ports
            && (Resolvable(secured.value, Members(refs)) <==> Resolvable(active, Members(refs)))
            && (Resolvable(active, Members(refs)) ==>
                  var joined := Joined(active, Resolved(active, Members(refs)), p);
                  Then(Joining(secured.value, Members(refs), p), SetRecord(p, Join(refs, " "))) ==
                  Some(joined.(ports := joined.ports[p := PortRow(Join(refs, " "), value)])))
  {
    hide Join, Words;
    ChangedPortKeeps(active, p, active.ports[p].(portSecurity := value));
    var secured := Apply(active, SetPortSecurity(p, value)).value;
    assert forall r :: Resolve(secured, r) == Resolve(active, r);
    assert Resolved(secured, Members(refs)) == Resolved(active, Members(refs));
    var row := PortRow(Join(refs, " "), value);
    assert secured.groups == active.groups && secured.ports[p := row] == active.ports[p := row];
  }

  /** The last commands of an update: groups joined, groups left, record. */
  lemma UpdatedPieces(secured: State, p: PortId, joins: set<string>, leaves: set<string>, record: string)
    requires Valid(secured) && p in secured.ports
    ensures var joined := Joining(secured, joins, p);
            && (joined.Some? ==> Valid(joined.value))
            && (var left := if joined == None then None else Leaving(joined.value, leaves, p);
                Then(left, SetRecord(p, record)) ==
                if !Resolvable(secured, joins + leaves) then None
                else Some(WithRecord(Left(Joined(secured, Resolved(secured, joins), p), Resolved(secured, leaves), p),
                                     p, record)))
  {
    assert Resolvable(secured, joins + leaves) <==> Resolvable(secured, joins) && Resolvable(secured, leaves);
    if Resolvable(secured, joins) {
      var joined := Joined(secured, Resolved(secured, joins), p);
      JoinedKeeps(secured, Resolved(secured, joins), p);
      SameResolved(secured, joined, leaves);
    }
  }

  lemma SameResolved(s: State, t: State, refs: set<string>)
    requires s.names == t.names && s.groups.Keys == t.groups.Keys
    ensures (Resolvable(s, refs) <==> Resolvable(t, refs)) && Resolved(s, refs) == Resolved(t, refs)
  {
    assert forall r :: Resolve(s, r) == Resolve(t, r);
  }

  lemma FoundIsThere(s: State, ref: string)
    requires Valid(s)
    ensures Resolve(s, ref).Some? ==> Resolve(s, ref).value in s.groups
  {
  }

  /** A group that was just looked up is found by its uuid too. */
  lemma FoundByUuid(s: State, g: Name)
    requires Valid(s) && g in s.groups
    ensures Resolve(s, s.groups[g].uuid) == Some(g) == Resolve(s, g)
  {
  }

  lemma DropTextSpelled(d: Direction, g: Name)
    ensures AclDirection(d, g) + " && ip" == MatchText([AtPort(d, g), AnyIp])
  {
    AclDirectionSpells(d, g);
    AtomTextsOne(AtPort(d, g));
    AtomTextsOne(AnyIp);
    AtomTextsAppend([AtPort(d, g)], [AnyIp]);
    assert [AtPort(d, g), AnyIp] == [AtPort(d, g)] + [AnyIp];
    assert AtomTexts([AtPort(d, g), AnyIp]) == [AtomText(AtPort(d, g)), "ip"];
    hide AtomText, AclDirection;
    JoinTwo(AtomText(AtPort(d, g)), "ip", " && ");
    assert " && " + "ip" == " && ip";
  }

  lemma JoinTwo(a: string, b: string, sep: string)
    ensures Join([a, b], sep) == a + (sep + b)
  {
    assert [a, b][1..] == [b];
    assert a + sep + b == a + (sep + b);
  }

  // ---------------------------------------------------------------------------------------------
  // The calls
  // ---------------------------------------------------------------------------------------------

  class SecurityGroupApi {
    var tables: State
    var queue: seq<Command>

    constructor (s: State)
      ensures tables == s && queue == []
    {
      tables, queue := s, [];
    }

    /** What committing the queue would leave. */
    ghost function Pending(): Option<State>
      reads this
    {
      Commit(tables, queue)
    }

    /** `tx.add` */
    method Add(c: Command)
      modifies this`queue
      ensures Pending() == Then(old(Pending()), c)
    {
      CommitOne(tables, queue, c);
      queue := queue + [c];
    }

    /** The end of `with self.tx_manager.transaction()`. */
    method CommitQueue() returns (ok: bool)
      modifies this
      ensures ok <==> old(Pending()).Some?
      ensures tables == if ok then old(Pending()).value else old(tables)
      ensures queue == []
    {
      var t := Commit(tables, queue);
      ok := t.Some?;
      if ok {
        tables := t.value;
      }
      queue := [];
    }

    /** `ovn_connection.execute` of one command */
    method Execute(c: Command) returns (ok: bool)
      modifies this`tables
      ensures ok <==> Apply(old(tables), c).Some?
      ensures tables == if ok then Apply(old(tables), c).value else old(tables)
    {
      var t := Apply(tables, c);
      ok := t.Some?;
      if ok {
        tables := t.value;
      }
    }

    /** `create_drop_all_traffic_acls`: one for each direction, its match written out. */
    static method CreateDropAllTrafficAcls() returns (acls: seq<Acl>)
      ensures acls == DropAcls()
    {
      hide MatchText, AclDirection;
      var directions := [Ingress, Egress];
      acls := [];
      var i := 0;
      while i < 2
        invariant 0 <= i <= 2 && acls == DropAcls()[..i]
      {
        DropTextSpelled(directions[i], DROP_ALL);
        acls := acls + [Acl(directions[i], DROP_PRIORITY, AclDirection(directions[i], DROP_ALL) + " && ip", Drop,
                            DROP_ALL)];
        i := i + 1;
      }
    }

    /** `assure_group_exists`: the group is looked up in the tables, not in what is queued. */
    method AssureGroupExists(g: Name, u: Uuid, ids: seq<AclId>, acls: seq<Acl>)
      requires |ids| == |acls| && DistinctIds(ids) && DistinctRules(acls)
      requires Valid(tables) && g !in tables.names
      requires Pending().Some? ==>
                 var s := Pending().value;
                 Valid(s) && (g in s.groups <==> g in tables.groups) && g !in s.names && g != u && u !in s.names
      modifies this`queue
      ensures old(Pending()) == None ==> Pending() == None
      ensures old(Pending()).Some? ==> Pending() == Some(Provisioned(old(Pending()).value, g, u, ids, acls))
    {
      hide Valid, Commit, DistinctRules, Provisioned, Apply;
      ghost var start := Pending();
      if start.Some? {
        ProvisionStart(start.value, g, u, ids, acls);
      }
      if Resolve(tables, g) == None {
        Add(PgAdd(g, u));
        var k := 0;
        while k < |acls|
          invariant 0 <= k <= |acls|
          invariant start == None ==> Pending() == None
          invariant start.Some? ==> Pending() == Some(Provisioned(start.value, g, u, ids[..k], acls[..k]))
        {
          if start.Some? {
            ProvisionMore(start.value, g, u, ids, acls, k);
          }
          Add(PgAclAdd(g, ids[k], acls[k]));
          k := k + 1;
        }
        assert ids[..k] == ids && acls[..k] == acls;
      }
    }

    /** `activate_default_security_group` */
    method ActivateDefaultSecurityGroup(p: PortId, f: Fresh, associate: bool)
      requires Valid(tables) && IsFresh(tables, f)
      requires Pending().Some? ==>
                 var s := Pending().value;
                 Valid(s) && p in s.ports && s.groups == tables.groups && s.names == tables.names
      modifies this`queue
      ensures old(Pending()) == None ==> Pending() == None
      ensures old(Pending()).Some? ==> Pending() == Some(Activated(old(Pending()).value, p, f, associate))
    {
      hide Valid, Commit, DistinctRules, Provisioned, Apply, NewIds, DropAcls, DefaultAcls, Joined;
      ghost var start := Pending();
      ReservedAclsDiffer();
      FreshIdsDiffer(tables, f);
      ReservedUnnamed(tables);
      if start.Some? {
        StillFresh(tables, start.value, f);
        DropAllStage(start.value, p, f);
        DefaultStage(start.value, p, f);
        ReservedUnnamed(start.value);
        ReservedUnnamed(Joined(Provisioned(start.value, DROP_ALL, f.dropUuid, f.dropIds, DropAcls()), {DROP_ALL}, p));
      }
      var drops := CreateDropAllTrafficAcls();
      AssureGroupExists(DROP_ALL, f.dropUuid, f.dropIds, drops);
      Add(PgAddPorts(DROP_ALL, p));
      AssureGroupExists(DEFAULT, f.defaultUuid, f.defaultIds, DefaultAcls());
      if associate {
        Add(PgAddPorts(DEFAULT, p));
      }
    }

    /** `add_security_groups_to_port` with a list */
    method AddSecurityGroupsToPort(p: PortId, refs: seq<string>)
      requires Pending().Some? ==> Valid(Pending().value) && p in Pending().value.ports
      modifies this`queue
      ensures Pending() == if old(Pending()) == None then None else Joining(old(Pending()).value, Members(refs), p)
    {
      hide Valid, Commit, Joining, Apply;
      ghost var start := Pending();
      if start.Some? {
        JoiningMore(start.value, {}, p, "");
      }
      assert Members(refs[..0]) == {};
      var k := 0;
      while k < |refs|
        invariant 0 <= k <= |refs|
        invariant Pending() == if start == None then None else Joining(start.value, Members(refs[..k]), p)
      {
        if start.Some? {
          JoiningMore(start.value, Members(refs[..k]), p, refs[k]);
          assert Members(refs[..k + 1]) == Members(refs[..k]) + {refs[k]};
        }
        Add(PgAddPorts(refs[k], p));
        k := k + 1;
      }
      assert refs[..k] == refs;
    }

    /** The same with a set, in whatever order its elements come. */
    method InstallSecurityGroups(p: PortId, refs: set<string>)
      requires Pending().Some? ==> Valid(Pending().value) && p in Pending().value.ports
      modifies this`queue
      ensures Pending() == if old(Pending()) == None then None else Joining(old(Pending()).value, refs, p)
    {
      hide Valid, Commit, Joining, Apply;
      ghost var start := Pending();
      if start.Some? {
        JoiningMore(start.value, {}, p, "");
      }
      var todo := refs;
      assert refs - todo == {};
      while todo != {}
        invariant todo <= refs
        invariant Pending() == if start == None then None else Joining(start.value, refs - todo, p)
        decreases |todo|
      {
        var r :| r in todo;
        if start.Some? {
          JoiningMore(start.value, refs - todo, p, r);
          assert refs - (todo - {r}) == refs - todo + {r};
        }
        Add(PgAddPorts(r, p));
        todo := todo - {r};
      }
      assert refs - {} == refs;
    }

    /** `remove_security_groups_from_port` */
    method RemoveSecurityGroupsFromPort(p: PortId, refs: set<string>)
      requires Pending().Some? ==> Valid(Pending().value)
      modifies this`queue
      ensures Pending() == if old(Pending()) == None then None else Leaving(old(Pending()).value, refs, p)
    {
      hide Valid, Commit, Leaving, Apply;
      ghost var start := Pending();
      if start.Some? {
        LeavingMore(start.value, {}, p, "");
      }
      var todo := refs;
      assert refs - todo == {};
      while todo != {}
        invariant todo <= refs
        invariant Pending() == if start == None then None else Leaving(start.value, refs - todo, p)
        decreases |todo|
      {
        var r :| r in todo;
        if start.Some? {
          LeavingMore(start.value, refs - todo, p, r);
          assert refs - (todo - {r}) == refs - todo + {r};
        }
        Add(PgDelPorts(r, p));
        todo := todo - {r};
      }
      assert refs - {} == refs;
    }

    /** `deactivate_dropall_security_group`: DropAll is looked up by name and left by its uuid. */
    method DeactivateDropAll(p: PortId)
      requires Valid(tables) && Pending() == Some(tables)
      modifies this`queue
      ensures Pending() == Some(if DROP_ALL in tables.groups then Left(tables, {DROP_ALL}, p) else tables)
    {
      hide Commit, Apply, Left;
      if Resolve(tables, DROP_ALL).Some? {
        LeaveOne(tables, {}, p, tables.groups[DROP_ALL].uuid);
        NoneMoved(tables, p);
        assert {} + {DROP_ALL} == {DROP_ALL};
        Add(PgDelPorts(tables.groups[DROP_ALL].uuid, p));
      }
    }

    /** `add_port`.  When the address checks raise, what is queued is committed all the same. */
    method AddPort(p: PortId, mac: string, addressed: bool, networkSecurity: bool,
                   portSecurity: Option<bool>, groups: Option<seq<string>>, rows: Fresh) returns (ok: bool)
      requires Valid(tables) && IsFresh(tables, rows)
      modifies this
      ensures (tables, ok) == PortAdded(old(tables), p, mac, addressed, networkSecurity, portSecurity, groups, rows)
    {
      hide Valid, Commit, Activated, NewIds, Resolvable, Resolved, Joined, Join;
      ghost var created := tables.(ports := tables.ports[p := PortRow("", [])]);
      queue := [];
      assert Pending() == Some(tables) by { EmptyCommit(tables); }
      Add(LspAdd(p));
      if !addressed {
        var committed := CommitQueue();
        return false;
      }
      var secure := if portSecurity.Some? then portSecurity.value else networkSecurity;
      var refs := if groups.Some? then groups.value else if secure then [DEFAULT] else [];
      if p !in tables.ports {
        NewPortValid(tables, p);
      }
      if secure {
        if p !in tables.ports {
          StillFresh(tables, created, rows);
          ActivatedKeeps(created, p, rows, true);
        }
        ActivateDefaultSecurityGroup(p, rows, true);
      }
      ghost var active := if secure then Activated(created, p, rows, true) else created;
      assert Pending() == if p in tables.ports then None else Some(active);
      if p !in tables.ports {
        AddedPieces(active, p, refs, if secure then [mac] else []);
      }
      Add(SetPortSecurity(p, if secure then [mac] else []));
      AddSecurityGroupsToPort(p, refs);
      Add(SetRecord(p, Join(refs, " ")));
      ok := CommitQueue();
    }

    /** `delete_port` of a port that is not a router's */
    method DeletePort(p: PortId) returns (ok: bool)
      modifies this
      ensures (tables, ok) == PortDeleted(old(tables), p)
    {
      if p !in tables.ports {
        return false;
      }
      queue := [];
      assert Pending() == Some(tables) by { EmptyCommit(tables); }
      Add(LspDel(p));
      ok := CommitQueue();
    }

    /** `update_port_security` on an update */
    method UpdatePortSecurity(p: PortId, mac: string, portSecurity: Option<bool>, rows: Fresh)
      requires Valid(tables) && IsFresh(tables, rows) && p in tables.ports && Pending() == Some(tables)
      modifies this`queue
      ensures Pending() == Some(SecurityUpdated(tables, p, mac, portSecurity, rows))
    {
      hide Valid, Commit, Activated, NewIds, Left;
      if portSecurity == Some(true) {
        ActivatedKeeps(tables, p, rows, false);
        ActivateDefaultSecurityGroup(p, rows, false);
        Add(SetPortSecurity(p, [mac]));
      } else if portSecurity == Some(false) {
        if tables.ports[p].portSecurity != [] {
          DeactivateDropAll(p);
        }
        LeftKeeps(tables, {DROP_ALL}, p);
        Add(SetPortSecurity(p, []));
      }
    }

    /** `update_port` */
    method UpdatePort(p: PortId, mac: string, addressed: bool, portSecurity: Option<bool>,
                      groups: Option<seq<string>>, rows: Fresh) returns (ok: bool)
      requires Valid(tables) && IsFresh(tables, rows)
      modifies this
      ensures (tables, ok) == PortUpdated(old(tables), p, mac, addressed, portSecurity, groups, rows)
    {
      hide Valid, Commit, SecurityUpdated, NewIds, Resolvable, Resolved, Joined, Left, Join, Words, Joining;
      hide Leaving, Apply;
      if p !in tables.ports || !addressed {
        return false;
      }
      queue := [];
      assert Pending() == Some(tables) by { EmptyCommit(tables); }
      ghost var secured := SecurityUpdated(tables, p, mac, portSecurity, rows);
      SecurityUpdatedKeeps(tables, p, mac, portSecurity, rows);
      SecurityUpdatedPorts(tables, p, mac, portSecurity, rows);
      UpdatePortSecurity(p, mac, portSecurity, rows);
      if groups.Some? || portSecurity == Some(true) {
        var wanted := if groups.Some? then Members(groups.value) else {DEFAULT};
        var had := Members(Words(tables.ports[p].record));
        var record := if groups.Some? then Join(groups.value, " ") else if {DEFAULT} - had == {} then "" else DEFAULT;
        UpdatedPieces(secured, p, wanted - had, had - wanted, record);
        InstallSecurityGroups(p, wanted - had);
        RemoveSecurityGroupsFromPort(p, had - wanted);
        Add(SetRecord(p, record));
        assert ({DEFAULT} - had == {}) == (DEFAULT in had) by {
          assert DEFAULT in {DEFAULT} - had || DEFAULT in had;
        }
      }
      ok := CommitQueue();
    }

    /** `add_security_group` */
    method AddSecurityGroup(name: string, generated: Name, u: Uuid, ids: seq<AclId>) returns (ok: bool)
      requires Valid(tables) && Legal(tables, AddGroup(name, generated, u, ids))
      modifies this
      ensures (tables, ok) == GroupAdded(old(tables), name, generated, u, ids)
    {
      hide Valid, Commit, Provisioned, OpenAcl, Apply, Table;
      var g := if name == DEFAULT || name == DROP_ALL then name else generated;
      var acls := EgressAcls(g);
      ghost var start := tables;
      ReservedAreWords();
      ReservedUnnamed(tables);
      EgressAclsOk(g);
      ProvisionStart(start, g, u, ids, acls);
      queue := [];
      assert Pending() == Some(tables) by { EmptyCommit(tables); }
      Add(PgAdd(g, u));
      if g in tables.groups {
        TakenFails(tables, g, u);
      }
      var k := 0;
      while k < |acls|
        invariant 0 <= k <= |acls| && tables == start
        invariant g in start.groups ==> Pending() == None
        invariant g !in start.groups ==> Pending() == Some(Provisioned(start, g, u, ids[..k], acls[..k]))
      {
        if g !in start.groups {
          NewUuidUnnamed(start, u, g);
          ProvisionMore(start, g, u, ids, acls, k);
        }
        Add(PgAclAdd(g, ids[k], acls[k]));
        k := k + 1;
      }
      assert ids[..k] == ids && acls[..k] == acls;
      ok := CommitQueue();
    }

    /** `delete_security_group` */
    method DeleteSecurityGroup(ref: string) returns (ok: bool)
      requires Valid(tables)
      modifies this`tables
      ensures (tables, ok) == GroupDeleted(old(tables), ref)
    {
      var g := Resolve(tables, ref);
      if g == None || g.value == DEFAULT || tables.groups[g.value].ports != {} {
        return false;
      }
      ok := Execute(PgDel(ref));
    }

    /** `update_security_group` */
    method UpdateSecurityGroup(ref: string) returns (ok: bool)
      requires Valid(tables)
      modifies this
      ensures (tables, ok) == GroupUpdated(old(tables), ref)
    {
      queue := [];
      assert Pending() == Some(tables) by { EmptyCommit(tables); }
      var g := Resolve(tables, ref);
      if g == None || g.value == DEFAULT {
        var committed := CommitQueue();
        return false;
      }
      Add(SetRevision(ref, tables.groups[g.value].revision + 1));
      ok := CommitQueue();
    }

    /** `create_security_group_rule`: the ACL is added first, and the revision written when that worked. */
    method CreateSecurityGroupRule(ref: string, rule: Rule, id: AclId) returns (ok: bool)
      requires Valid(tables)
      modifies this`tables
      ensures (tables, ok) == RuleAdded(old(tables), ref, rule, id)
    {
      hide Valid, HasRule, Apply, RuleAcl, CompiledAtoms, Join, WithGroup;
      var g := Resolve(tables, ref);
      FoundIsThere(tables, ref);
      if g == None {
        return false;
      }
      var revision := tables.groups[g.value].revision + 1;
      var resolved := rule.(remoteGroup := None);
      if Given(rule.remoteGroup) {
        var remote := Resolve(tables, rule.remoteGroup.value);
        if remote == None {
          return false;
        }
        resolved := rule.(remoteGroup := remote);
      }
      var parts := CreateAclMatch(resolved, g.value);
      SpelledAcl(resolved, g.value, parts);
      if parts == None {
        return false;
      }
      var u := tables.groups[g.value].uuid;
      var acl := Acl(rule.direction, ALLOW_PRIORITY, Join(parts.value, SEPARATOR), Allow, g.value);
      AclThenRevision(tables, g.value, id, acl);
      ok := Execute(PgAclAdd(u, id, acl));
      if ok {
        ok := Execute(SetRevision(u, revision));
      }
    }

    /** `get_security_group_rule`: the ACL with the row id, and the group it is attached to. */
    method GetSecurityGroupRule(id: AclId) returns (g: Option<Name>)
      ensures g.Some? ==> OwnsAcl(tables, g.value, id)
      ensures g == None ==> forall h :: !OwnsAcl(tables, h, id)
    {
      if exists h :: h in tables.groups && id in tables.groups[h].acls {
        var h :| h in tables.groups && id in tables.groups[h].acls;
        return Some(h);
      }
      return None;
    }

    /** `remove_security_group_rule`: the ACL is found by its row id, and deleted by what it says. */
    method RemoveSecurityGroupRule(id: AclId) returns (ok: bool)
      requires Valid(tables)
      modifies this`tables
      ensures (forall g :: !OwnsAcl(old(tables), g, id)) ==> tables == old(tables) && !ok
      ensures (exists g :: OwnsAcl(old(tables), g, id)) ==>
                exists g :: OwnsAcl(old(tables), g, id) && (tables, ok) == RuleRemoved(old(tables), g, id)
    {
      hide Apply, RuleRemoved, Valid;
      var g := GetSecurityGroupRule(id);
      if g == None {
        return false;
      }
      DeletionThenRevision(tables, g.value, id);
      var acl := tables.groups[g.value].acls[id];
      ok := Execute(PgAclDel(acl.owner, acl.direction, acl.priority, acl.text));
      if ok {
        var owner := Resolve(tables, acl.owner).value;
        ok := Execute(SetRevision(acl.owner, tables.groups[owner].revision + 1));
      }
    }
  }
}
