/** What every run of the port and security group calls keeps. */
module SecurityInvariants {
  import opened Text
  import opened Acls
  import opened AclMeaning
  import opened PortGroups
  import opened SecurityGroups

  // ---------------------------------------------------------------------------------------------
  // Runs
  // ---------------------------------------------------------------------------------------------

  datatype Op =
    | AddPort(p: PortId, mac: string, addressed: bool, networkSecurity: bool,
              portSecurity: Option<bool>, groups: Option<seq<string>>, rows: Fresh)
    | UpdatePort(p: PortId, mac: string, addressed: bool,
                 portSecurity: Option<bool>, groups: Option<seq<string>>, rows: Fresh)
    | DeletePort(p: PortId)
    | AddGroup(name: string, generated: Name, uuid: Uuid, ids: seq<AclId>)
    | DeleteGroup(ref: string)
    | UpdateGroup(ref: string)
    | AddRule(ref: string, rule: Rule, id: AclId)
    | RemoveRule(g: Name, id: AclId)

  ghost predicate Unrecorded(s: State, u: Uuid) {
    forall p :: p in s.ports ==> u !in Words(s.ports[p].record)
  }

  /** Generated uuids were never seen before, so they are on no record either. */
  ghost predicate NeverSeen(s: State, f: Fresh) {
    IsFresh(s, f) && Unrecorded(s, f.dropUuid) && Unrecorded(s, f.defaultUuid)
  }

  /** What the surroundings guarantee: generated ids are new, and a rule's prefix is a parsed one. */
  ghost predicate Legal(s: State, op: Op) {
    match op
    case AddPort(_, _, _, _, _, _, f) => NeverSeen(s, f)
    case UpdatePort(_, _, _, _, _, f) => NeverSeen(s, f)
    case AddGroup(_, g, u, ids) =>
      && NewUuid(s, u) && Unrecorded(s, u) && IsWord(g) && CleanFragment(g) && g != DEFAULT && g != DROP_ALL
      && g !in s.names && g != u && |ids| == 2 && NewIds(s, ids)
    case AddRule(_, rule, id) => NewIds(s, [id]) && CleanRule(rule.(remoteGroup := None), "")
    case RemoveRule(g, id) => OwnsAcl(s, g, id)
    case _ => true
  }

  function Step(s: State, op: Op): (State, bool)
    requires op.AddPort? || op.UpdatePort? ==> |op.rows.dropIds| == 2 && |op.rows.defaultIds| == 4
    requires op.AddGroup? ==> |op.ids| == 2
    requires op.RemoveRule? ==> OwnsAcl(s, op.g, op.id)
  {
    match op
    case AddPort(p, mac, addressed, network, security, groups, f) =>
      PortAdded(s, p, mac, addressed, network, security, groups, f)
    case UpdatePort(p, mac, addressed, security, groups, f) => PortUpdated(s, p, mac, addressed, security, groups, f)
    case DeletePort(p) => PortDeleted(s, p)
    case AddGroup(name, g, u, ids) => GroupAdded(s, name, g, u, ids)
    case DeleteGroup(ref) => GroupDeleted(s, ref)
    case UpdateGroup(ref) => GroupUpdated(s, ref)
    case AddRule(ref, rule, id) => RuleAdded(s, ref, rule, id)
    case RemoveRule(g, id) => RuleRemoved(s, g, id)
  }

  // ---------------------------------------------------------------------------------------------
  // The stages of a call
  // ---------------------------------------------------------------------------------------------

  /** The same groups with the same rules; only the ports in them may differ. */
  ghost predicate SameGroups(s: State, t: State) {
    && t.groups.Keys == s.groups.Keys && t.names == s.names
    && forall g :: g in s.groups ==> t.groups[g].(ports := {}) == s.groups[g].(ports := {})
  }

  lemma JoinedKeeps(s: State, gs: set<Name>, p: PortId)
    requires Valid(s) && p in s.ports
    ensures Valid(Joined(s, gs, p)) && SameGroups(s, Joined(s, gs, p)) && Joined(s, gs, p).ports == s.ports
  {
  }

  lemma LeftKeeps(s: State, gs: set<Name>, p: PortId)
    requires Valid(s)
    ensures Valid(Left(s, gs, p)) && SameGroups(s, Left(s, gs, p)) && Left(s, gs, p).ports == s.ports
  {
  }

  lemma ProvisionedValid(s: State, g: Name, u: Uuid, ids: seq<AclId>, acls: seq<Acl>)
    requires Valid(s) && NewUuid(s, u) && IsWord(g) && g !in s.names && g != u && |ids| == |acls|
    ensures Valid(Provisioned(s, g, u, ids, acls))
  {
    hide Table;
    var row := Group(u, {}, Table(ids, acls), 1);
    var t := Provisioned(s, g, u, ids, acls);
    assert g !in s.groups ==> t == State(s.ports, s.groups[g := row], s.names[u := g]);
  }

  lemma ProvisionedKeeps(s: State, g: Name, u: Uuid, ids: seq<AclId>, acls: seq<Acl>)
    requires Valid(s) && NewUuid(s, u) && |ids| == |acls|
    ensures var t := Provisioned(s, g, u, ids, acls);
            && t.ports == s.ports && g in t.groups
            && (forall h :: h in s.groups ==> h in t.groups && t.groups[h] == s.groups[h])
            && (forall r :: Resolve(s, r).Some? ==> Resolve(t, r) == Resolve(s, r))
            && (forall h :: h in t.groups && h !in s.groups ==> h == g && t.groups[h].ports == {})
  {
    var row := Group(u, {}, Table(ids, acls), 1);
    var t := Provisioned(s, g, u, ids, acls);
    assert g !in s.groups ==> t == State(s.ports, s.groups[g := row], s.names[u := g]);
  }

  /** The references of a list that is recorded as a string are read back from it. */
  lemma ListReadsBack(refs: seq<string>)
    requires forall r :: r in Members(refs) ==> IsWord(r)
    ensures Words(Join(refs, " ")) == refs
  {
    forall i | 0 <= i < |refs|
      ensures IsWord(refs[i])
    {
      assert refs[i] in Members(refs);
    }
    WordsJoin(refs);
  }

  lemma RecordReadsBack(s: State, refs: seq<string>)
    requires Valid(s) && Resolvable(s, Members(refs))
    ensures Words(Join(refs, " ")) == refs
  {
    assert forall r :: r in Members(refs) ==> Resolve(s, r).Some?;
    ListReadsBack(refs);
  }

  ghost predicate In(s: State, g: Name, p: PortId) {
    g in s.groups && p in s.groups[g].ports
  }

  /** `t` has the groups of `s`, with the same rules, and found by the same references. */
  ghost predicate Extends(s: State, t: State) {
    && (forall r :: Resolve(s, r).Some? ==> Resolve(t, r) == Resolve(s, r))
    && (forall h :: h in s.groups ==> h in t.groups && t.groups[h].(ports := {}) == s.groups[h].(ports := {}))
  }

  /** Making a missing group puts no port anywhere. */
  lemma ProvisionedIn(s: State, g: Name, u: Uuid, ids: seq<AclId>, acls: seq<Acl>)
    requires Valid(s) && NewUuid(s, u) && IsWord(g) && g !in s.names && g != u && |ids| == |acls|
    ensures var t := Provisioned(s, g, u, ids, acls);
            Extends(s, t) && forall h, p :: In(t, h, p) <==> In(s, h, p)
  {
    ProvisionedKeeps(s, g, u, ids, acls);
  }

  lemma SecuredKeeps(s: State, f: Fresh)
    requires Valid(s) && IsFresh(s, f)
    ensures var t := Secured(s, f);
            && Valid(t) && t.ports == s.ports && Extends(s, t)
            && DROP_ALL in t.groups && DEFAULT in t.groups
            && (forall g, p :: In(t, g, p) <==> In(s, g, p))
  {
    ReservedAreWords();
    var drops, defaults := DropAcls(), DefaultAcls();
    ProvisionedValid(s, DROP_ALL, f.dropUuid, f.dropIds, drops);
    ProvisionedKeeps(s, DROP_ALL, f.dropUuid, f.dropIds, drops);
    ProvisionedIn(s, DROP_ALL, f.dropUuid, f.dropIds, drops);
    var mid := Provisioned(s, DROP_ALL, f.dropUuid, f.dropIds, drops);
    assert NewUuid(mid, f.defaultUuid);
    ProvisionedValid(mid, DEFAULT, f.defaultUuid, f.defaultIds, defaults);
    ProvisionedKeeps(mid, DEFAULT, f.defaultUuid, f.defaultIds, defaults);
    ProvisionedIn(mid, DEFAULT, f.defaultUuid, f.defaultIds, defaults);
  }

  lemma ReservedAreWords()
    ensures IsWord(DEFAULT) && IsWord(DROP_ALL) && DEFAULT != DROP_ALL
    ensures CleanFragment(DEFAULT) && CleanFragment(DROP_ALL)
  {
    assert DEFAULT[1] != DROP_ALL[1];
  }

  lemma ExtendsTransitive(s: State, t: State, u: State)
    ensures Extends(s, t) && Extends(t, u) ==> Extends(s, u)
  {
  }

  lemma JoinedIn(s: State, gs: set<Name>, p: PortId)
    ensures Extends(s, Joined(s, gs, p))
    ensures forall g, q :: In(Joined(s, gs, p), g, q) <==> In(s, g, q) || (q == p && g in gs && g in s.groups)
  {
  }

  lemma LeftIn(s: State, gs: set<Name>, p: PortId)
    ensures Extends(s, Left(s, gs, p))
    ensures forall g, q :: In(Left(s, gs, p), g, q) <==> In(s, g, q) && !(q == p && g in gs)
  {
  }

  lemma JoinedFrom(s: State, mid: State, drop: Name, default: Name, p: PortId, associate: bool)
    requires Valid(mid) && p in mid.ports && Extends(s, mid) && drop in mid.groups && default in mid.groups
    requires forall g, q :: In(mid, g, q) <==> In(s, g, q)
    ensures var t := Joined(mid, {drop} + (if associate then {default} else {}), p);
            && Valid(t) && t.ports == mid.ports && Extends(s, t) && drop in t.groups && default in t.groups
            && (forall g, q :: In(t, g, q) <==> In(s, g, q) || (q == p && (g == drop || (associate && g == default))))
  {
    var gs := {drop} + (if associate then {default} else {});
    JoinedKeeps(mid, gs, p);
    JoinedIn(mid, gs, p);
    ExtendsTransitive(s, mid, Joined(mid, gs, p));
  }

  lemma ActivatedKeeps(s: State, p: PortId, f: Fresh, associate: bool)
    requires Valid(s) && IsFresh(s, f) && p in s.ports
    ensures var t := Activated(s, p, f, associate);
            && Valid(t) && t.ports == s.ports && Extends(s, t)
            && DROP_ALL in t.groups && DEFAULT in t.groups
            && (forall g, q :: In(t, g, q) <==>
                  In(s, g, q) || (q == p && (g == DROP_ALL || (associate && g == DEFAULT))))
  {
    SecuredKeeps(s, f);
    JoinedFrom(s, Secured(s, f), DROP_ALL, DEFAULT, p, associate);
  }

  lemma ChangedPortKeeps(s: State, p: PortId, row: PortRow)
    requires Valid(s) && p in s.ports
    ensures Valid(s.(ports := s.ports[p := row]))
  {
  }

  /** Writing a row of `p` after taking it out of `drop` or into it. */
  lemma LeavingKeeps(s: State, p: PortId, drop: Name, leaves: bool, value: seq<string>)
    requires Valid(s) && p in s.ports
    ensures var t := WithSecurity(if leaves then Left(s, {drop}, p) else s, p, value);
            && Valid(t) && Extends(s, t)
            && (forall g, q :: In(t, g, q) <==> In(s, g, q) && !(q == p && g == drop && leaves))
  {
    hide Valid, Left;
    var mid := if leaves then Left(s, {drop}, p) else s;
    LeftKeeps(s, {drop}, p);
    LeftIn(s, {drop}, p);
    ChangedPortKeeps(mid, p, mid.ports[p].(portSecurity := value));
    var t := WithSecurity(mid, p, value);
    assert t.groups == mid.groups && t.names == mid.names;
    forall g, q
      ensures In(t, g, q) <==> In(s, g, q) && !(q == p && g == drop && leaves)
    {
      assert In(t, g, q) <==> In(mid, g, q);
    }
  }

  lemma SecuringKeeps(s: State, mid: State, p: PortId, drop: Name, value: seq<string>)
    requires Valid(mid) && p in mid.ports && mid.ports == s.ports && Extends(s, mid)
    requires forall g, q :: In(mid, g, q) <==> In(s, g, q) || (q == p && g == drop)
    ensures var t := WithSecurity(mid, p, value);
            && Valid(t) && Extends(s, t) && (forall g, q :: In(t, g, q) <==> In(s, g, q) || (q == p && g == drop))
  {
    hide Valid;
    ChangedPortKeeps(mid, p, mid.ports[p].(portSecurity := value));
    var t := WithSecurity(mid, p, value);
    assert t.groups == mid.groups && t.names == mid.names;
    forall g, q
      ensures In(t, g, q) <==> In(s, g, q) || (q == p && g == drop)
    {
      assert In(t, g, q) <==> In(mid, g, q);
    }
  }

  /** The security part of an update: which groups the port is in afterwards. */
  lemma SecurityUpdatedKeeps(s: State, p: PortId, mac: string, security: Option<bool>, f: Fresh)
    requires Valid(s) && IsFresh(s, f) && p in s.ports
    ensures var t := SecurityUpdated(s, p, mac, security, f);
            && Valid(t) && Extends(s, t)
            && (forall g, q :: In(t, g, q) <==>
                  || (In(s, g, q) && !(q == p && g == DROP_ALL && Drops(s, p, security)))
                  || (q == p && g == DROP_ALL && security == Some(true)))
  {
    if security == Some(true) {
      ActivatedKeeps(s, p, f, false);
      SecuringKeeps(s, Activated(s, p, f, false), p, DROP_ALL, [mac]);
    } else if security == Some(false) {
      LeavingKeeps(s, p, DROP_ALL, Drops(s, p, security), []);
    }
  }

  lemma SecurityUpdatedPorts(s: State, p: PortId, mac: string, security: Option<bool>, f: Fresh)
    requires p in s.ports && |f.dropIds| == 2 && |f.defaultIds| == 4
    ensures var t := SecurityUpdated(s, p, mac, security, f);
            && t.ports == s.ports[p := t.ports[p]]
            && t.ports[p] == s.ports[p].(portSecurity := if security == Some(true) then [mac]
                                                         else if security == Some(false) then []
                                                         else s.ports[p].portSecurity)
  {
    hide Table, DropAcls, DefaultAcls;
  }

  /** Turning security off takes the port out of DropAll. */
  predicate Drops(s: State, p: PortId, security: Option<bool>) {
    p in s.ports && security == Some(false) && s.ports[p].portSecurity != [] && DROP_ALL in s.groups
  }

  // ---------------------------------------------------------------------------------------------
  // Records and membership
  // ---------------------------------------------------------------------------------------------

  ghost predicate Recorded(s: State, p: PortId, ref: string) {
    p in s.ports && ref in Words(s.ports[p].record)
  }

  ghost predicate InGroup(s: State, p: PortId, ref: string) {
    Resolve(s, ref).Some? && In(s, Resolve(s, ref).value, p)
  }

  /** Every group recorded on a port is there and has the port as a member. */
  ghost predicate Consistent(s: State) {
    forall p, r :: Recorded(s, p, r) ==> InGroup(s, p, r)
  }

  lemma CreatedConsistent(s: State, p: PortId)
    requires Valid(s) && Consistent(s) && p !in s.ports
    ensures var t := s.(ports := s.ports[p := PortRow("", [])]); Valid(t) && Consistent(t)
  {
    var t := s.(ports := s.ports[p := PortRow("", [])]);
    forall q, r | Recorded(t, q, r)
      ensures InGroup(t, q, r)
    {
      assert Words("") == [];
      assert Recorded(s, q, r);
    }
  }

  /** Joining the groups of a list and recording the list. */
  lemma RecordingConsistent(s: State, p: PortId, refs: seq<string>, row: PortRow)
    requires Valid(s) && p in s.ports && Resolvable(s, Members(refs)) && row.record == Join(refs, " ")
    requires forall q, r :: q != p && Recorded(s, q, r) ==> InGroup(s, q, r)
    ensures var joined := Joined(s, Resolved(s, Members(refs)), p);
            var t := joined.(ports := joined.ports[p := row]);
            Valid(t) && Consistent(t)
  {
    var gs := Resolved(s, Members(refs));
    var joined := Joined(s, gs, p);
    var t := joined.(ports := joined.ports[p := row]);
    JoinedKeeps(s, gs, p);
    JoinedIn(s, gs, p);
    ChangedPortKeeps(joined, p, row);
    RecordReadsBack(s, refs);
    forall q, r | Recorded(t, q, r)
      ensures InGroup(t, q, r)
    {
      if q == p {
        assert r in Members(refs);
        assert Resolve(s, r).value in gs;
      } else {
        assert Recorded(s, q, r);
      }
    }
  }

  lemma ExtensionConsistent(s: State, t: State, p: PortId)
    requires Consistent(s) && Extends(s, t) && t.ports == s.ports
    requires forall g, q :: q != p && In(s, g, q) ==> In(t, g, q)
    ensures forall q, r :: q != p && Recorded(t, q, r) ==> InGroup(t, q, r)
  {
    forall q, r | q != p && Recorded(t, q, r)
      ensures InGroup(t, q, r)
    {
      assert Recorded(s, q, r);
    }
  }

  lemma AddPortConsistent(s: State, p: PortId, mac: string, addressed: bool, network: bool,
                          security: Option<bool>, groups: Option<seq<string>>, f: Fresh)
    requires Valid(s) && IsFresh(s, f) && Consistent(s)
    ensures var t := PortAdded(s, p, mac, addressed, network, security, groups, f).0;
            Valid(t) && Consistent(t)
  {
    if p !in s.ports {
      CreatedConsistent(s, p);
      var created := s.(ports := s.ports[p := PortRow("", [])]);
      var secure := if security.Some? then security.value else network;
      var refs := if groups.Some? then groups.value else if secure then [DEFAULT] else [];
      var active := if secure then Activated(created, p, f, true) else created;
      if secure {
        ActivatedKeeps(created, p, f, true);
      }
      ExtensionConsistent(created, active, p);
      if addressed && Resolvable(active, Members(refs)) {
        RecordingConsistent(active, p, refs, PortRow(Join(refs, " "), if secure then [mac] else []));
      }
    }
  }

  // ---------------------------------------------------------------------------------------------
  // Updating a port
  // ---------------------------------------------------------------------------------------------

  function Had(s: State, p: PortId): set<string>
    requires p in s.ports
  {
    Members(Words(s.ports[p].record))
  }

  /** The groups an update adds, and those it takes away. */
  function Installed(s: State, p: PortId, security: Option<bool>, groups: Option<seq<string>>): set<string>
    requires p in s.ports
  {
    var wanted := Requested(security, groups);
    if wanted == None then {} else wanted.value - Had(s, p)
  }

  function Removed(s: State, p: PortId, security: Option<bool>, groups: Option<seq<string>>): set<string>
    requires p in s.ports
  {
    var wanted := Requested(security, groups);
    if wanted == None then {} else Had(s, p) - wanted.value
  }

  /** The references recorded after an update. */
  function RecordedAfter(s: State, p: PortId, security: Option<bool>, groups: Option<seq<string>>): set<string>
    requires p in s.ports
  {
    if Requested(security, groups) == None then Had(s, p)
    else if groups.Some? then Members(groups.value)
    else if DEFAULT in Had(s, p) then {}
    else {DEFAULT}
  }

  /** Joining some groups and leaving others, and recording references. */
  lemma DeltaKeeps(s: State, p: PortId, joins: set<Name>, leaves: set<Name>, record: string)
    requires Valid(s) && p in s.ports
    ensures var t := WithRecord(Left(Joined(s, joins, p), leaves, p), p, record);
            && Valid(t) && Extends(s, t) && t.names == s.names && t.groups.Keys == s.groups.Keys
            && (forall g, q :: In(t, g, q) <==>
                  if q == p then (In(s, g, p) || (g in joins && g in s.groups)) && g !in leaves else In(s, g, q))
  {
    var joined := Joined(s, joins, p);
    var left := Left(joined, leaves, p);
    JoinedKeeps(s, joins, p);
    JoinedIn(s, joins, p);
    LeftKeeps(joined, leaves, p);
    LeftIn(joined, leaves, p);
    ChangedPortKeeps(left, p, left.ports[p].(record := record));
  }

  /** Of the ports other than `p` nothing recorded is lost. */
  lemma OthersConsistent(s: State, t: State, p: PortId)
    requires Consistent(s)
    requires forall r :: Resolve(s, r).Some? ==> Resolve(t, r) == Resolve(s, r)
    requires forall q :: q != p && q in t.ports ==> q in s.ports && t.ports[q].record == s.ports[q].record
    requires forall g, q :: q != p && In(s, g, q) ==> In(t, g, q)
    ensures forall q, r :: q != p && Recorded(t, q, r) ==> InGroup(t, q, r)
  {
    forall q, r | q != p && Recorded(t, q, r)
      ensures InGroup(t, q, r)
    {
      assert Recorded(s, q, r);
    }
  }

  lemma WordsOfDefault()
    ensures Words(DEFAULT) == [DEFAULT] && Words("") == []
  {
    ReservedAreWords();
    WordThenSpace(DEFAULT, "");
    assert DEFAULT + "" == DEFAULT;
  }

  /** The string an update writes holds exactly the references of `RecordedAfter`. */
  lemma RecordWritten(s: State, p: PortId, security: Option<bool>, groups: Option<seq<string>>, t: State)
    requires p in s.ports && Requested(security, groups).Some?
    requires Valid(t) && (groups.Some? ==> Resolvable(t, Members(groups.value) - Had(s, p)))
    ensures Members(Words(NewRecord(groups, Had(s, p)))) == RecordedAfter(s, p, security, groups)
  {
    if groups.Some? {
      forall r | r in Members(groups.value)
        ensures IsWord(r)
      {
        if r in Had(s, p) {
          WordsAreWords(s.ports[p].record);
        } else {
          assert Resolve(t, r).Some?;
        }
      }
      ListReadsBack(groups.value);
    } else {
      WordsOfDefault();
    }
  }

  lemma HadResolves(s: State, t: State, p: PortId)
    requires Consistent(s) && Extends(s, t) && p in s.ports
    ensures Resolvable(t, Had(s, p))
  {
    forall r | r in Had(s, p)
      ensures Resolve(t, r).Some?
    {
      assert Recorded(s, p, r);
    }
  }

  /** `t` is `s` with the port `p` moved: into `joins`, then out of `leaves`. */
  ghost predicate Moved(s: State, t: State, p: PortId, joins: set<Name>, leaves: set<Name>) {
    && t.names == s.names && t.groups.Keys == s.groups.Keys
    && (forall g, q :: In(t, g, q) <==>
          if q == p then (In(s, g, p) || (g in joins && g in s.groups)) && g !in leaves else In(s, g, q))
  }

  ghost predicate OnlyPort(s: State, t: State, p: PortId) {
    t.ports.Keys == s.ports.Keys && forall q :: q in s.ports && q != p ==> t.ports[q] == s.ports[q]
  }

  /** What an update takes as its new references can all be looked up. */
  lemma WantedResolves(secured: State, had: set<string>, wanted: set<string>)
    requires Resolvable(secured, had) && Resolvable(secured, (wanted - had) + (had - wanted))
    ensures Resolvable(secured, wanted)
  {
    forall r | r in wanted
      ensures Resolve(secured, r).Some?
    {
      assert r in had || r in (wanted - had) + (had - wanted);
    }
  }

  lemma MovedKeeps(s: State, p: PortId, joins: set<Name>, leaves: set<Name>, record: string)
    requires Valid(s) && p in s.ports
    ensures var t := WithRecord(Left(Joined(s, joins, p), leaves, p), p, record);
            && Valid(t) && Extends(s, t) && Moved(s, t, p, joins, leaves) && OnlyPort(s, t, p)
            && t.ports[p] == s.ports[p].(record := record)
  {
    DeltaKeeps(s, p, joins, leaves, record);
  }

  /** The rest of an update, once security has been dealt with. */
  lemma GroupsUpdatedKeeps(s: State, secured: State, p: PortId, security: Option<bool>, groups: Option<seq<string>>)
    returns (t: State)
    requires Valid(secured) && p in s.ports && OnlyPort(s, secured, p)
    requires secured.ports[p].record == s.ports[p].record
    requires Requested(security, groups).Some?
    requires Resolvable(secured, Installed(s, p, security, groups) + Removed(s, p, security, groups))
    ensures t == WithRecord(Left(Joined(secured, Resolved(secured, Installed(s, p, security, groups)), p),
                                 Resolved(secured, Removed(s, p, security, groups)), p),
                            p, NewRecord(groups, Had(s, p)))
    ensures Valid(t) && Extends(secured, t) && OnlyPort(s, t, p)
    ensures Moved(secured, t, p, Resolved(secured, Installed(s, p, security, groups)),
                  Resolved(secured, Removed(s, p, security, groups)))
    ensures t.ports[p].portSecurity == secured.ports[p].portSecurity
    ensures Members(Words(t.ports[p].record)) == RecordedAfter(s, p, security, groups)
    ensures Resolvable(secured, Had(s, p)) ==> Resolvable(secured, RecordedAfter(s, p, security, groups))
  {
    var had, wanted := Had(s, p), Requested(security, groups).value;
    if Resolvable(secured, had) {
      WantedResolves(secured, had, wanted);
    }
    RecordWritten(s, p, security, groups, secured);
    var joins, leaves := Resolved(secured, wanted - had), Resolved(secured, had - wanted);
    var record := NewRecord(groups, had);
    MovedKeeps(secured, p, joins, leaves, record);
    t := WithRecord(Left(Joined(secured, joins, p), leaves, p), p, record);
  }

  /** A successful update, in terms of membership and record. */
  lemma PortUpdatedKeeps(s: State, p: PortId, mac: string, security: Option<bool>, groups: Option<seq<string>>,
                         f: Fresh)
    returns (secured: State, t: State)
    requires Valid(s) && IsFresh(s, f)
    requires PortUpdated(s, p, mac, true, security, groups, f).1
    ensures secured == SecurityUpdated(s, p, mac, security, f)
    ensures t == PortUpdated(s, p, mac, true, security, groups, f).0
    ensures Valid(secured) && Valid(t) && Extends(s, secured) && Extends(secured, t) && OnlyPort(s, t, p)
    ensures Moved(secured, t, p, Resolved(secured, Installed(s, p, security, groups)),
                  Resolved(secured, Removed(s, p, security, groups)))
    ensures t.ports[p].portSecurity == secured.ports[p].portSecurity
    ensures Members(Words(t.ports[p].record)) == RecordedAfter(s, p, security, groups)
    ensures Resolvable(secured, Had(s, p)) ==> Resolvable(secured, RecordedAfter(s, p, security, groups))
  {
    secured := SecurityUpdated(s, p, mac, security, f);
    SecurityUpdatedKeeps(s, p, mac, security, f);
    SecurityUpdatedPorts(s, p, mac, security, f);
    if Requested(security, groups) == None {
      t := secured;
    } else {
      t := GroupsUpdatedKeeps(s, secured, p, security, groups);
    }
  }

  /** The recorded reference `r` does not name a group the update takes the port out of. */
  ghost predicate Safe(s: State, secured: State, p: PortId, security: Option<bool>, groups: Option<seq<string>>,
                       r: string)
    requires p in s.ports
  {
    Resolve(secured, r).Some? ==>
      var g := Resolve(secured, r).value;
      && g !in Resolved(secured, Removed(s, p, security, groups))
      && (Drops(s, p, security) && g == DROP_ALL ==> g in Resolved(secured, Installed(s, p, security, groups)))
  }

  /** No reference recorded afterwards names a group the same update takes the port out of: neither
      as a group removed under another identifier, nor as DropAll when security is turned off. */
  ghost predicate NothingLost(s: State, secured: State, p: PortId, security: Option<bool>, groups: Option<seq<string>>)
    requires p in s.ports
  {
    forall r :: r in RecordedAfter(s, p, security, groups) ==> Safe(s, secured, p, security, groups, r)
  }

  lemma RecordedIsSafe(s: State, secured: State, t: State, p: PortId, security: Option<bool>,
                       groups: Option<seq<string>>, drop: Name, r: string)
    requires Valid(secured) && Consistent(s) && p in s.ports && Extends(s, secured) && Extends(secured, t)
    requires drop == DROP_ALL
    requires Moved(secured, t, p, Resolved(secured, Installed(s, p, security, groups)),
                   Resolved(secured, Removed(s, p, security, groups)))
    requires Resolvable(secured, RecordedAfter(s, p, security, groups)) && r in RecordedAfter(s, p, security, groups)
    requires forall g :: In(secured, g, p) <==>
               (In(s, g, p) && !(g == drop && Drops(s, p, security))) || (g == drop && security == Some(true))
    ensures InGroup(t, p, r) <==> Safe(s, secured, p, security, groups, r)
  {
    var installed, removed := Installed(s, p, security, groups), Removed(s, p, security, groups);
    var g := Resolve(secured, r).value;
    if r in Had(s, p) {
      assert Recorded(s, p, r);
    } else {
      assert r in installed && g in Resolved(secured, installed);
    }
  }

  /** An update keeps record and membership together exactly when nothing recorded is lost by it. */
  lemma UpdateConsistentIffNothingLost(s: State, p: PortId, mac: string, security: Option<bool>,
                                       groups: Option<seq<string>>, f: Fresh)
    requires Valid(s) && IsFresh(s, f) && Consistent(s)
    requires PortUpdated(s, p, mac, true, security, groups, f).1
    ensures var t := PortUpdated(s, p, mac, true, security, groups, f).0;
            && Valid(t)
            && (Consistent(t) <==> NothingLost(s, SecurityUpdated(s, p, mac, security, f), p, security, groups))
  {
    var secured, t := PortUpdatedKeeps(s, p, mac, security, groups, f);
    SecurityUpdatedKeeps(s, p, mac, security, f);
    HadResolves(s, secured, p);
    ConsistentIffNothingLost(s, secured, t, p, security, groups, DROP_ALL);
  }

  lemma ConsistentIffNothingLost(s: State, secured: State, t: State, p: PortId, security: Option<bool>,
                                 groups: Option<seq<string>>, drop: Name)
    requires Valid(secured) && Consistent(s) && p in s.ports && Extends(s, secured) && Extends(secured, t)
    requires drop == DROP_ALL
    requires OnlyPort(s, t, p) && Members(Words(t.ports[p].record)) == RecordedAfter(s, p, security, groups)
    requires Moved(secured, t, p, Resolved(secured, Installed(s, p, security, groups)),
                   Resolved(secured, Removed(s, p, security, groups)))
    requires Resolvable(secured, RecordedAfter(s, p, security, groups))
    requires forall g, q :: In(secured, g, q) <==>
               || (In(s, g, q) && !(q == p && g == drop && Drops(s, p, security)))
               || (q == p && g == drop && security == Some(true))
    ensures Consistent(t) <==> NothingLost(s, secured, p, security, groups)
  {
    OthersConsistent(s, t, p);
    forall r
      ensures Recorded(t, p, r) <==> r in RecordedAfter(s, p, security, groups)
      ensures Recorded(t, p, r) ==> (InGroup(t, p, r) <==> Safe(s, secured, p, security, groups, r))
    {
      if r in RecordedAfter(s, p, security, groups) {
        RecordedIsSafe(s, secured, t, p, security, groups, drop, r);
      }
    }
  }

  /** With one identifier for each group, and DropAll never among them, nothing is lost. */
  lemma OneIdentifierLosesNothing(s: State, secured: State, p: PortId, security: Option<bool>,
                                  groups: Option<seq<string>>)
    requires p in s.ports
    requires forall a, b | a in RecordedAfter(s, p, security, groups) && b in Had(s, p) ::
               Resolve(secured, a).Some? && Resolve(secured, a) == Resolve(secured, b) ==> a == b
    requires forall a :: a in RecordedAfter(s, p, security, groups) ==> Resolve(secured, a) != Some(DROP_ALL)
    ensures NothingLost(s, secured, p, security, groups)
  {
    forall r | r in RecordedAfter(s, p, security, groups)
      ensures Safe(s, secured, p, security, groups, r)
    {
      if Resolve(secured, r).Some? {
        forall b | b in Removed(s, p, security, groups)
          ensures Resolve(secured, b) != Resolve(secured, r)
        {
          assert b in Had(s, p) && b !in RecordedAfter(s, p, security, groups);
        }
      }
    }
  }

  /** One group under two identifiers: asking for it by uuid when it is recorded by name takes the
      port out of it, and the record still lists it. */
  lemma TwoIdentifiersLose(s: State, u: Uuid, f: Fresh)
    requires Valid(s) && Consistent(s) && DEFAULT in s.groups && s.groups[DEFAULT].uuid == u
    requires 0 in s.ports && s.ports[0].record == DEFAULT
    requires IsFresh(s, f)
    ensures var (t, ok) := PortUpdated(s, 0, "", true, None, Some([u]), f);
            ok && Recorded(t, 0, u) && !InGroup(t, 0, u) && !Consistent(t)
  {
    WordsOfDefault();
    AskedSets(s, u);
    var t := AskedByUuid(s, u, f);
    hide PortUpdated, Words;
    UpdatedPortIs(s, 0, "", None, Some([u]), f);
    hide Removed, RecordedAfter, Installed, Valid, IsFresh;
    assert Resolve(t, u) == Some(DEFAULT) == Resolve(t, DEFAULT);
    assert DEFAULT in Resolved(t, {DEFAULT});
    hide Resolved;
    assert !In(t, DEFAULT, 0);
    assert u in Members(Words(t.ports[0].record));
  }

  lemma AskedSets(s: State, u: Uuid)
    requires Valid(s) && DEFAULT in s.groups && s.groups[DEFAULT].uuid == u
    requires 0 in s.ports && Words(s.ports[0].record) == [DEFAULT]
    ensures Resolve(s, u) == Some(DEFAULT) == Resolve(s, DEFAULT)
    ensures Removed(s, 0, None, Some([u])) == {DEFAULT} && RecordedAfter(s, 0, None, Some([u])) == {u}
  {
    hide Words;
    assert Members([u]) == {u} && Members([DEFAULT]) == {DEFAULT} && u != DEFAULT;
  }

  lemma AskedByUuid(s: State, u: Uuid, f: Fresh) returns (t: State)
    requires Valid(s) && DEFAULT in s.groups && s.groups[DEFAULT].uuid == u && 0 in s.ports && IsFresh(s, f)
    requires Words(s.ports[0].record) == [DEFAULT]
    ensures PortUpdated(s, 0, "", true, None, Some([u]), f).1 && t == PortUpdated(s, 0, "", true, None, Some([u]), f).0
    ensures t.names == s.names && t.groups.Keys == s.groups.Keys
  {
    hide Words, NewRecord;
    assert Resolve(s, u) == Some(DEFAULT) == Resolve(s, DEFAULT);
    t := PortUpdated(s, 0, "", true, None, Some([u]), f).0;
  }

  /** An update with an explicit list replaces: the record becomes the list, and so does membership if and
      only if no group other than DropAll is both on the list and, under another identifier, among those
      that are dropped. */
  lemma DeltaRefinesReplacement(s: State, p: PortId, mac: string, security: Option<bool>, list: seq<string>, f: Fresh)
    requires Valid(s) && IsFresh(s, f) && PortUpdated(s, p, mac, true, security, Some(list), f).1
    requires Resolvable(s, Had(s, p)) && forall g :: g != DROP_ALL ==> (In(s, g, p) <==> g in Resolved(s, Had(s, p)))
    ensures var secured := SecurityUpdated(s, p, mac, security, f);
            var t := PortUpdated(s, p, mac, true, security, Some(list), f).0;
            && Members(Words(t.ports[p].record)) == Members(list)
            && ((forall g :: g != DROP_ALL ==> (In(t, g, p) <==> g in Resolved(t, Members(list)))) <==>
                Resolved(secured, Members(list)) * Resolved(secured, Had(s, p) - Members(list)) <= {DROP_ALL})
            && (forall g, q :: q != p ==> (In(t, g, q) <==> In(s, g, q)))
  {
    assert p in s.ports;
    var secured, t := PortUpdatedKeeps(s, p, mac, security, Some(list), f);
    SecurityUpdatedKeeps(s, p, mac, security, f);
    assert Resolvable(secured, Had(s, p));
    assert Installed(s, p, security, Some(list)) == Members(list) - Had(s, p);
    assert Removed(s, p, security, Some(list)) == Had(s, p) - Members(list);
    ReplacedBy(s, secured, t, p, DROP_ALL, Had(s, p), Members(list));
    OthersUntouched(s, secured, t, p, DROP_ALL, Drops(s, p, security), security == Some(true),
                    Resolved(secured, Members(list) - Had(s, p)), Resolved(secured, Had(s, p) - Members(list)));
  }

  lemma OthersUntouched(s: State, secured: State, t: State, p: PortId, drop: Name, drops: bool, on: bool,
                        joins: set<Name>, leaves: set<Name>)
    requires Moved(secured, t, p, joins, leaves)
    requires forall g, q :: In(secured, g, q) <==>
               (In(s, g, q) && !(q == p && g == drop && drops)) || (q == p && g == drop && on)
    ensures forall g, q :: q != p ==> (In(t, g, q) <==> In(s, g, q))
  {
  }

  lemma ReplacedBy(s: State, secured: State, t: State, p: PortId, drop: Name, had: set<string>, wanted: set<string>)
    requires Valid(secured) && Extends(s, secured) && Resolvable(s, had)
    requires Moved(secured, t, p, Resolved(secured, wanted - had), Resolved(secured, had - wanted))
    requires forall g :: g != drop ==> (In(s, g, p) <==> g in Resolved(s, had))
    requires forall g :: g != drop ==> (In(secured, g, p) <==> In(s, g, p))
    ensures (forall g :: g != drop ==> (In(t, g, p) <==> g in Resolved(t, wanted))) <==>
            Resolved(secured, wanted) * Resolved(secured, had - wanted) <= {drop}
  {
    SameResolvedNames(secured, t, wanted);
    ResolvedAlike(s, secured, had);
    ResolvedAreThere(secured, wanted - had);
    ResolvedTogether(secured, had, wanted - had);
    ResolvedTogether(secured, wanted, had - wanted);
    assert had + (wanted - had) == wanted + (had - wanted);
    hide Valid, Extends, Resolved, Resolvable;
    IsListIff(t, p, drop, Resolved(secured, wanted), Resolved(secured, had - wanted));
  }

  lemma IsListIff(t: State, p: PortId, drop: Name, list: set<Name>, dropped: set<Name>)
    requires forall g :: g != drop ==> (In(t, g, p) <==> g in list && g !in dropped)
    ensures (forall g :: g != drop ==> (In(t, g, p) <==> g in list)) <==> list * dropped <= {drop}
  {
    hide In;
    if !(list * dropped <= {drop}) {
      var g :| g in list * dropped && g !in {drop};
      assert g != drop && !In(t, g, p);
    } else {
      forall g | g != drop
        ensures In(t, g, p) <==> g in list
      {
        assert g !in {drop} && g !in list * dropped;
      }
    }
  }

  lemma ResolvedTogether(s: State, a: set<string>, b: set<string>)
    ensures Resolved(s, a + b) == Resolved(s, a) + Resolved(s, b)
  {
  }

  lemma ResolvedAlike(s: State, t: State, refs: set<string>)
    requires Extends(s, t) && Resolvable(s, refs)
    ensures Resolved(t, refs) == Resolved(s, refs)
  {
    assert forall r :: r in refs ==> Resolve(t, r) == Resolve(s, r);
  }

  // ---------------------------------------------------------------------------------------------
  // What a port ends up with
  // ---------------------------------------------------------------------------------------------

  lemma SameResolvedNames(s: State, t: State, refs: set<string>)
    requires s.names == t.names && s.groups.Keys == t.groups.Keys
    ensures Resolved(s, refs) == Resolved(t, refs)
  {
    assert forall r :: Resolve(s, r) == Resolve(t, r);
  }

  ghost predicate NewPortIs(s: State, t: State, p: PortId, refs: seq<string>, secure: bool, mac: string) {
    && p !in s.ports && t.ports.Keys == s.ports.Keys + {p} && (forall q :: q in s.ports ==> t.ports[q] == s.ports[q])
    && Words(t.ports[p].record) == refs && t.ports[p].portSecurity == (if secure then [mac] else [])
    && (forall g :: In(t, g, p) <==> g in Resolved(t, Members(refs)) || (secure && (g == DROP_ALL || g == DEFAULT)))
    && (forall g, q :: q != p ==> (In(t, g, q) <==> In(s, g, q)))
  }

  /** A port added records the groups asked for and is in them, and in DropAll and Default as well when
      it is secured; no other port moves. */
  lemma AddedPortIs(s: State, p: PortId, mac: string, network: bool, security: Option<bool>,
                    groups: Option<seq<string>>, f: Fresh)
    requires Valid(s) && IsFresh(s, f) && PortAdded(s, p, mac, true, network, security, groups, f).1
    ensures var secure := if security.Some? then security.value else network;
            NewPortIs(s, PortAdded(s, p, mac, true, network, security, groups, f).0, p,
                      if groups.Some? then groups.value else if secure then [DEFAULT] else [], secure, mac)
  {
    hide Activated, Resolvable, Resolved, Words, Join, NewPortIs, Joined;
    var created := s.(ports := s.ports[p := PortRow("", [])]);
    var secure := if security.Some? then security.value else network;
    var refs := if groups.Some? then groups.value else if secure then [DEFAULT] else [];
    var active := if secure then Activated(created, p, f, true) else created;
    NewPortValid(s, p);
    if secure {
      ActivatedKeeps(created, p, f, true);
    }
    hide Valid;
    JoinedPortIs(s, active, p, refs, secure, mac, DROP_ALL, DEFAULT);
  }

  lemma JoinedPortIs(s: State, active: State, p: PortId, refs: seq<string>, secure: bool, mac: string, drop: Name,
                     default: Name)
    requires Valid(active) && p !in s.ports && active.ports == s.ports[p := PortRow("", [])]
    requires Resolvable(active, Members(refs))
    requires drop == DROP_ALL && default == DEFAULT && forall g :: !In(s, g, p)
    requires secure ==> drop in active.groups && default in active.groups
    requires forall g, q :: In(active, g, q) <==> In(s, g, q) || (secure && q == p && (g == drop || g == default))
    ensures var joined := Joined(active, Resolved(active, Members(refs)), p);
            NewPortIs(s, joined.(ports := joined.ports[p := PortRow(Join(refs, " "), if secure then [mac] else [])]), p,
                      refs, secure, mac)
  {
    hide Words, Join;
    var gs := Resolved(active, Members(refs));
    var joined := Joined(active, gs, p);
    var t := joined.(ports := joined.ports[p := PortRow(Join(refs, " "), if secure then [mac] else [])]);
    JoinedIn(active, gs, p);
    RecordReadsBack(active, refs);
    SameResolvedNames(active, t, Members(refs));
    ResolvedAreThere(active, Members(refs));
    assert joined.ports == active.ports && t.groups == joined.groups;
    hide Valid, Joined, Resolved, Resolvable;
    assert forall g, q :: In(t, g, q) <==> In(joined, g, q);
  }

  lemma NewPortValid(s: State, p: PortId)
    requires Valid(s) && p !in s.ports
    ensures Valid(s.(ports := s.ports[p := PortRow("", [])])) && forall g :: !In(s, g, p)
  {
  }

  lemma ResolvedAreThere(s: State, refs: set<string>)
    requires Valid(s)
    ensures forall g :: g in Resolved(s, refs) ==> g in s.groups
  {
  }

  /** A port updated is in the groups it was in, DropAll as its security says, those the update adds, and
      not in those it takes away; its record lists what was asked for, and no other port moves. */
  lemma UpdatedPortIs(s: State, p: PortId, mac: string, security: Option<bool>, groups: Option<seq<string>>, f: Fresh)
    requires Valid(s) && IsFresh(s, f) && PortUpdated(s, p, mac, true, security, groups, f).1
    ensures var t := PortUpdated(s, p, mac, true, security, groups, f).0;
            && OnlyPort(s, t, p)
            && (security == Some(true) ==> t.ports[p].portSecurity == [mac])
            && (security == Some(false) ==> t.ports[p].portSecurity == [])
            && (security == None ==> t.ports[p].portSecurity == s.ports[p].portSecurity)
            && Members(Words(t.ports[p].record)) == RecordedAfter(s, p, security, groups)
            && (forall g :: In(t, g, p) <==>
                  && g !in Resolved(t, Removed(s, p, security, groups))
                  && (g in Resolved(t, Installed(s, p, security, groups)) ||
                      (if g == DROP_ALL && security == Some(true) then true
                       else In(s, g, p) && !(g == DROP_ALL && Drops(s, p, security)))))
            && (forall g, q :: q != p ==> (In(t, g, q) <==> In(s, g, q)))
  {
    assert p in s.ports;
    hide SecurityUpdated, PortUpdated, Consistent, RecordedAfter, Installed, Removed;
    var secured, t := PortUpdatedKeeps(s, p, mac, security, groups, f);
    SecurityUpdatedKeeps(s, p, mac, security, f);
    SecurityUpdatedPorts(s, p, mac, security, f);
    SameResolvedNames(secured, t, Installed(s, p, security, groups));
    SameResolvedNames(secured, t, Removed(s, p, security, groups));
    ResolvedAreThere(secured, Installed(s, p, security, groups));
    hide Valid, Extends, Resolved;
  }

  // ---------------------------------------------------------------------------------------------
  // The other calls
  // ---------------------------------------------------------------------------------------------

  lemma DeletePortConsistent(s: State, p: PortId)
    requires Valid(s) && Consistent(s)
    ensures var t := PortDeleted(s, p).0; Valid(t) && Consistent(t)
  {
    var t := PortDeleted(s, p).0;
    forall q, r | Recorded(t, q, r)
      ensures InGroup(t, q, r)
    {
      assert Recorded(s, q, r);
    }
  }

  lemma AddGroupConsistent(s: State, name: string, g: Name, u: Uuid, ids: seq<AclId>)
    requires Valid(s) && Consistent(s) && NewUuid(s, u) && IsWord(g) && g !in s.names && g != u && |ids| == 2
    ensures var t := GroupAdded(s, name, g, u, ids).0; Valid(t) && Consistent(t)
  {
    ReservedAreWords();
    var h := if name == DEFAULT || name == DROP_ALL then name else g;
    ProvisionedValid(s, h, u, ids, EgressAcls(h));
    ProvisionedIn(s, h, u, ids, EgressAcls(h));
    ProvisionedKeeps(s, h, u, ids, EgressAcls(h));
    var t := GroupAdded(s, name, g, u, ids).0;
    forall q, r | Recorded(t, q, r)
      ensures InGroup(t, q, r)
    {
      assert Recorded(s, q, r);
    }
  }

  /** A group that is recorded on a port is in use, so it is not deleted. */
  lemma DeleteGroupConsistent(s: State, ref: string)
    requires Valid(s) && Consistent(s)
    ensures var t := GroupDeleted(s, ref).0; Valid(t) && Consistent(t)
  {
    var t := GroupDeleted(s, ref).0;
    forall q, r | Recorded(t, q, r)
      ensures InGroup(t, q, r)
    {
      assert Recorded(s, q, r);
      assert In(s, Resolve(s, r).value, q);
    }
  }

  /** Changing the rules or the revision of a group. */
  lemma RowChangeConsistent(s: State, g: Name, row: Group)
    requires Valid(s) && Consistent(s) && g in s.groups && row.uuid == s.groups[g].uuid
    requires row.ports == s.groups[g].ports
    ensures Valid(WithGroup(s, g, row)) && Consistent(WithGroup(s, g, row))
  {
    var t := WithGroup(s, g, row);
    forall q, r | Recorded(t, q, r)
      ensures InGroup(t, q, r)
    {
      assert Recorded(s, q, r);
    }
  }

  lemma RuleCallsConsistent(s: State, op: Op)
    requires Valid(s) && Consistent(s) && Legal(s, op) && (op.UpdateGroup? || op.AddRule? || op.RemoveRule?)
    ensures var t := Step(s, op).0; Valid(t) && Consistent(t)
  {
    hide RuleAcl, WithRemote, HasRule, Unlike;
    match op
    case UpdateGroup(ref) =>
      if Step(s, op).1 {
        var g := Resolve(s, ref).value;
        RowChangeConsistent(s, g, Bumped(s.groups[g]));
      }
    case AddRule(ref, rule, id) =>
      if Step(s, op).1 {
        var g := Resolve(s, ref).value;
        RowChangeConsistent(s, g, Step(s, op).0.groups[g]);
      }
    case RemoveRule(h, id) =>
      if Step(s, op).1 {
        var g := Resolve(s, s.groups[h].acls[id].owner).value;
        RowChangeConsistent(s, g, Step(s, op).0.groups[g]);
      }
  }
}
