/** The `port_security` column of a port and its membership of DropAll: what every call does to the two,
    which calls keep them together, and whole runs. */
module SecurityTracks {
  import opened Text
  import opened PortGroups
  import opened SecurityGroups
  import opened SecurityInvariants
  import opened SecurityRuns

  // ---------------------------------------------------------------------------------------------
  // Which calls keep column and membership together
  // ---------------------------------------------------------------------------------------------

  ghost predicate Marked(s: State, p: PortId)
    requires p in s.ports
  {
    s.ports[p].portSecurity != [] <==> In(s, DROP_ALL, p)
  }

  /** A port has a `port_security` column that is not empty exactly when it is a member of DropAll. */
  ghost predicate Marks(s: State) {
    forall p :: p in s.ports ==> Marked(s, p)
  }

  /** A port added is secured, or its caller asks for no group that is DropAll. */
  ghost predicate AdditionMarks(s: State, network: bool, security: Option<bool>, groups: Option<seq<string>>) {
    || (if security.Some? then security.value else network)
    || groups == None || DROP_ALL !in Resolved(s, Members(groups.value))
  }

  /** An update takes a port that it leaves secured out of no group that is DropAll, and puts one that it
      leaves unsecured into none, or takes it out again.  `secured` is how it has dealt with security. */
  ghost predicate UpdateMarks(s: State, secured: State, p: PortId, security: Option<bool>, groups: Option<seq<string>>)
    requires p in s.ports
  {
    var joins := DROP_ALL in Resolved(secured, Installed(s, p, security, groups));
    var leaves := DROP_ALL in Resolved(secured, Removed(s, p, security, groups));
    if security == Some(true) || (security == None && s.ports[p].portSecurity != []) then !leaves
    else joins ==> leaves
  }

  ghost predicate Marking(s: State, op: Op)
    requires Legal(s, op)
  {
    match op
    case AddPort(p, mac, addressed, network, security, groups, f) =>
      addressed && Step(s, op).1 ==> AdditionMarks(s, network, security, groups)
    case UpdatePort(p, mac, addressed, security, groups, f) =>
      Step(s, op).1 && p in s.ports ==> UpdateMarks(s, SecurityUpdated(s, p, mac, security, f), p, security, groups)
    case _ => true
  }

  lemma MarksAlike(s: State, t: State, drop: Name)
    requires Marks(s) && drop == DROP_ALL
    requires forall q :: q in t.ports ==> q in s.ports && t.ports[q] == s.ports[q]
    requires forall q :: q in t.ports ==> (In(t, drop, q) <==> In(s, drop, q))
    ensures Marks(t)
  {
    assert forall q :: q in t.ports ==> Marked(s, q);
  }

  /** Only the port `p` is to be looked at. */
  lemma MarksBut(s: State, t: State, p: PortId)
    requires Marks(s) && p in t.ports
    requires forall q :: q in t.ports && q != p ==> q in s.ports && t.ports[q] == s.ports[q]
    requires forall g, q :: q != p ==> (In(t, g, q) <==> In(s, g, q))
    ensures Marks(t) <==> Marked(t, p)
  {
    assert forall q :: q in t.ports && q != p ==> Marked(s, q);
  }

  /** The port an update is for, `joins` and `leaves` being the groups it is put into and taken out of. */
  lemma MarkAfter(s: State, t: State, p: PortId, security: Option<bool>, joins: set<Name>, leaves: set<Name>,
                  drop: Name)
    requires drop == DROP_ALL
    requires p in s.ports && p in t.ports && Marked(s, p)
    requires In(t, drop, p) <==>
             && drop !in leaves
             && (drop in joins || security == Some(true) || (In(s, drop, p) && !Drops(s, p, security)))
    requires security == Some(true) ==> t.ports[p].portSecurity != []
    requires security == Some(false) ==> t.ports[p].portSecurity == []
    requires security == None ==> t.ports[p].portSecurity == s.ports[p].portSecurity
    ensures Marked(t, p) <==>
            if security == Some(true) || (security == None && s.ports[p].portSecurity != []) then drop !in leaves
            else drop in joins ==> drop in leaves
  {
    assert In(s, drop, p) ==> drop in s.groups;
    match security
    case None =>
    case Some(on) => assert security == Some(if on then true else false);
  }

  lemma UpdateMarksIff(s: State, p: PortId, mac: string, security: Option<bool>, groups: Option<seq<string>>, f: Fresh)
    requires Valid(s) && IsFresh(s, f) && Marks(s) && PortUpdated(s, p, mac, true, security, groups, f).1
    ensures p in s.ports
    ensures Marks(PortUpdated(s, p, mac, true, security, groups, f).0) <==>
            UpdateMarks(s, SecurityUpdated(s, p, mac, security, f), p, security, groups)
  {
    UpdateSucceeds(s, p, mac, true, security, groups, f);
    assert Marked(s, p);
    hide PortUpdated, SecurityUpdated, Installed, Removed, RecordedAfter, Marks, Valid, IsFresh, Words, Resolved, In;
    hide Marked, Drops;
    var secured, t := PortUpdatedKeeps(s, p, mac, security, groups, f);
    UpdatedPortIs(s, p, mac, security, groups, f);
    SameResolvedNames(secured, t, Installed(s, p, security, groups));
    SameResolvedNames(secured, t, Removed(s, p, security, groups));
    MarkAfter(s, t, p, security, Resolved(t, Installed(s, p, security, groups)),
              Resolved(t, Removed(s, p, security, groups)), DROP_ALL);
    MarksBut(s, t, p);
  }

  lemma AdditionMarksIff(s: State, p: PortId, mac: string, network: bool, security: Option<bool>,
                         groups: Option<seq<string>>, f: Fresh)
    requires Valid(s) && IsFresh(s, f) && Marks(s) && PortAdded(s, p, mac, true, network, security, groups, f).1
    ensures Marks(PortAdded(s, p, mac, true, network, security, groups, f).0) <==>
            AdditionMarks(s, network, security, groups)
  {
    var t := PortAdded(s, p, mac, true, network, security, groups, f).0;
    AddedPortIs(s, p, mac, network, security, groups, f);
    if !(if security.Some? then security.value else network) {
      UnsecuredNames(s, p, mac, network, security, groups, f);
      SameResolvedNames(s, t, Members(if groups.Some? then groups.value else []));
    }
    hide PortAdded, Marks, Valid, IsFresh, Words;
    MarksBut(s, t, p);
  }

  lemma UnsecuredNames(s: State, p: PortId, mac: string, network: bool, security: Option<bool>,
                       groups: Option<seq<string>>, f: Fresh)
    requires |f.dropIds| == 2 && |f.defaultIds| == 4 && PortAdded(s, p, mac, true, network, security, groups, f).1
    requires !(if security.Some? then security.value else network)
    ensures var t := PortAdded(s, p, mac, true, network, security, groups, f).0;
            t.names == s.names && t.groups.Keys == s.groups.Keys
  {
    hide Activated, Resolved, Join;
  }

  lemma FailedAdditionMarks(s: State, p: PortId, mac: string, addressed: bool, network: bool, security: Option<bool>,
                            groups: Option<seq<string>>, f: Fresh)
    requires Valid(s) && Marks(s) && |f.dropIds| == 2 && |f.defaultIds| == 4
    requires !(addressed && PortAdded(s, p, mac, addressed, network, security, groups, f).1)
    ensures Marks(PortAdded(s, p, mac, addressed, network, security, groups, f).0)
  {
    hide Activated, Resolved, Resolvable, Join;
    if p !in s.ports && !addressed {
      NewPortValid(s, p);
      var t := s.(ports := s.ports[p := PortRow("", [])]);
      hide Valid, Marks;
      MarksBut(s, t, p);
    }
  }

  lemma PortCallMarksIff(s: State, op: Op)
    requires Valid(s) && Marks(s) && Legal(s, op) && (op.AddPort? || op.UpdatePort?)
    ensures Marks(Step(s, op).0) <==> Marking(s, op)
  {
    hide PortAdded, PortUpdated, Marks, Valid, AdditionMarks, UpdateMarks, SecurityUpdated;
    hide NewIds, NewUuid, Unrecorded;
    match op
    case AddPort(p, mac, addressed, network, security, groups, f) =>
      if addressed && Step(s, op).1 {
        AdditionMarksIff(s, p, mac, network, security, groups, f);
      } else {
        FailedAdditionMarks(s, p, mac, addressed, network, security, groups, f);
      }
    case UpdatePort(p, mac, addressed, security, groups, f) =>
      if Step(s, op).1 {
        UpdateSucceeds(s, p, mac, addressed, security, groups, f);
        UpdateMarksIff(s, p, mac, security, groups, f);
      } else {
        FailedUpdate(s, p, mac, addressed, security, groups, f);
      }
  }

  lemma FailedUpdate(s: State, p: PortId, mac: string, addressed: bool, security: Option<bool>,
                     groups: Option<seq<string>>, f: Fresh)
    requires |f.dropIds| == 2 && |f.defaultIds| == 4 && !PortUpdated(s, p, mac, addressed, security, groups, f).1
    ensures PortUpdated(s, p, mac, addressed, security, groups, f).0 == s
  {
    hide SecurityUpdated, Resolvable, Resolved;
  }

  lemma GroupCallsMark(s: State, op: Op)
    requires Valid(s) && Marks(s) && Legal(s, op) && !op.AddPort? && !op.UpdatePort?
    ensures Marks(Step(s, op).0)
  {
    hide RuleAdded, RuleRemoved, GroupUpdated, OpenAcl, Table, Marks;
    var t := Step(s, op).0;
    if op.UpdateGroup? || op.AddRule? || op.RemoveRule? {
      RuleCallsKeepPorts(s, op);
    }
    MarksAlike(s, t, DROP_ALL);
  }

  /** A call keeps column and membership together if and only if it is a marking one. */
  lemma StepMarksIff(s: State, op: Op)
    requires Valid(s) && Marks(s) && Legal(s, op)
    ensures Marks(Step(s, op).0) <==> Marking(s, op)
  {
    hide Step, Marks, Valid;
    if op.AddPort? || op.UpdatePort? {
      PortCallMarksIff(s, op);
    } else {
      GroupCallsMark(s, op);
    }
  }

  ghost predicate MarkingRun(s: State, ops: seq<Op>)
    requires LegalRun(s, ops)
    decreases |ops|
  {
    ops == [] || (Marking(s, ops[0]) && MarkingRun(Step(s, ops[0]).0, ops[1..]))
  }

  ghost predicate MarksAlong(s: State, ops: seq<Op>)
    requires LegalRun(s, ops)
    decreases |ops|
  {
    Marks(s) && (ops == [] || MarksAlong(Step(s, ops[0]).0, ops[1..]))
  }

  /** Column and membership are together all along a run if and only if every call of it is a marking one. */
  lemma {:induction false} RunMarksIff(s: State, ops: seq<Op>)
    requires Valid(s) && Marks(s) && LegalRun(s, ops)
    ensures MarksAlong(s, ops) <==> MarkingRun(s, ops)
    ensures MarkingRun(s, ops) ==> Marks(Run(s, ops))
    decreases |ops|
  {
    hide Step, Valid, Marks, Marking;
    if ops != [] {
      StepMarksIff(s, ops[0]);
      StepValid(s, ops[0]);
      var t := Step(s, ops[0]).0;
      if Marks(t) {
        RunMarksIff(t, ops[1..]);
      } else {
        assert !MarksAlong(t, ops[1..]) by { UnmarkedNow(t, ops[1..]); }
      }
    }
  }

  lemma UnmarkedNow(s: State, ops: seq<Op>)
    requires LegalRun(s, ops) && !Marks(s)
    ensures !MarksAlong(s, ops)
  {
    hide Marks, Step;
  }

  /** From an empty database, over a run of marking calls, a port has a `port_security` column that is not
      empty exactly when it is a member of DropAll. */
  lemma ReachableMarks(ops: seq<Op>, p: PortId)
    requires LegalRun(EMPTY, ops) && MarkingRun(EMPTY, ops)
    requires p in Run(EMPTY, ops).ports
    ensures Run(EMPTY, ops).ports[p].portSecurity != [] <==> In(Run(EMPTY, ops), DROP_ALL, p)
  {
    hide LegalRun, MarkingRun, Run, In;
    EmptyIsConsistent();
    assert Marks(EMPTY);
    RunMarksIff(EMPTY, ops);
    assert Marked(Run(EMPTY, ops), p);
  }

  // ---------------------------------------------------------------------------------------------
  // Callers that do not name DropAll
  // ---------------------------------------------------------------------------------------------

  /** No recorded reference leads to DropAll. */
  ghost predicate Clear(s: State) {
    forall p, r :: Recorded(s, p, r) ==> r != DROP_ALL && Resolve(s, r) != Some(DROP_ALL)
  }

  /** The caller does not name DropAll. */
  ghost predicate Unnamed(s: State, groups: Option<seq<string>>, f: Fresh) {
    groups.Some? ==> forall r :: r in groups.value ==>
      r != DROP_ALL && r != f.dropUuid && Resolve(s, r) != Some(DROP_ALL)
  }

  ghost predicate Avoids(s: State, op: Op) {
    match op
    case AddPort(_, _, _, _, _, groups, f) => Unnamed(s, groups, f)
    case UpdatePort(_, _, _, _, groups, f) => Unnamed(s, groups, f)
    case _ => true
  }

  /** A reference that neither names DropAll nor is the uuid a new DropAll would get. */
  ghost predicate Elsewhere(s: State, u: Uuid, r: string) {
    r != DROP_ALL && r != u && Resolve(s, r) != Some(DROP_ALL)
  }

  /** What is recorded leads elsewhere, before a call that may make DropAll under the uuid `u`. */
  lemma RecordedElsewhere(s: State, u: Uuid)
    requires Clear(s) && Unrecorded(s, u)
    ensures forall p, r :: Recorded(s, p, r) ==> Elsewhere(s, u, r)
  {
    hide Words;
  }

  lemma ProvisionedResolves(s: State, g: Name, u: Uuid, ids: seq<AclId>, acls: seq<Acl>, r: string, drop: Name)
    requires Valid(s) && |ids| == |acls| && u !in s.names
    requires Resolve(s, r) != Some(drop)
    requires g == drop ==> r != u && r != drop
    ensures Resolve(Provisioned(s, g, u, ids, acls), r) != Some(drop)
  {
    hide Table;
  }

  lemma SecuredResolves(s: State, f: Fresh, r: string)
    requires Valid(s) && IsFresh(s, f) && Elsewhere(s, f.dropUuid, r)
    ensures Resolve(Secured(s, f), r) != Some(DROP_ALL)
  {
    ReservedAreWords();
    var drops, defaults := DropAcls(), DefaultAcls();
    ProvisionedValid(s, DROP_ALL, f.dropUuid, f.dropIds, drops);
    ProvisionedResolves(s, DROP_ALL, f.dropUuid, f.dropIds, drops, r, DROP_ALL);
    var mid := Provisioned(s, DROP_ALL, f.dropUuid, f.dropIds, drops);
    ProvisionedResolves(mid, DEFAULT, f.defaultUuid, f.defaultIds, defaults, r, DROP_ALL);
  }

  lemma UpdatedResolves(s: State, p: PortId, mac: string, security: Option<bool>, f: Fresh, r: string)
    requires Valid(s) && IsFresh(s, f) && p in s.ports && Elsewhere(s, f.dropUuid, r)
    ensures Resolve(SecurityUpdated(s, p, mac, security, f), r) != Some(DROP_ALL)
  {
    hide Secured;
    SecuredResolves(s, f, r);
  }

  /** The references an update deals with never find DropAll. */
  lemma NoneIsDropAll(secured: State, drop: Name, refs: set<string>)
    requires forall r :: r in refs ==> Resolve(secured, r) != Some(drop)
    ensures drop !in Resolved(secured, refs)
  {
  }

  lemma UpdateSucceeds(s: State, p: PortId, mac: string, addressed: bool, security: Option<bool>,
                       groups: Option<seq<string>>, f: Fresh)
    requires |f.dropIds| == 2 && |f.defaultIds| == 4 && PortUpdated(s, p, mac, addressed, security, groups, f).1
    ensures p in s.ports && addressed
  {
    hide SecurityUpdated;
  }

  /** What is asked for, and what is taken away, is not DropAll once security has been dealt with. */
  lemma AskedElsewhere(s: State, secured: State, p: PortId, mac: string, security: Option<bool>,
                       groups: Option<seq<string>>, f: Fresh)
    requires Valid(s) && NeverSeen(s, f) && Clear(s) && Unnamed(s, groups, f) && p in s.ports
    requires secured == SecurityUpdated(s, p, mac, security, f) && Valid(secured)
    ensures forall r :: r in Installed(s, p, security, groups) ==> Resolve(secured, r) != Some(DROP_ALL)
    ensures forall r :: r in Removed(s, p, security, groups) ==> Resolve(secured, r) != Some(DROP_ALL)
    ensures forall r :: r in RecordedAfter(s, p, security, groups) ==>
              r != DROP_ALL && Resolve(secured, r) != Some(DROP_ALL)
  {
    hide SecurityUpdated, Valid, IsFresh;
    ReservedAreWords();
    RecordedElsewhere(s, f.dropUuid);
    forall r | r in Installed(s, p, security, groups) || r in Removed(s, p, security, groups) ||
               r in RecordedAfter(s, p, security, groups)
      ensures r != DROP_ALL && Resolve(secured, r) != Some(DROP_ALL)
    {
      if r in Had(s, p) {
        assert Recorded(s, p, r);
        UpdatedResolves(s, p, mac, security, f, r);
      } else if groups.Some? {
        assert r in groups.value;
        UpdatedResolves(s, p, mac, security, f, r);
      } else {
        assert r == DEFAULT;
        DefaultIsItself(secured);
      }
    }
  }

  lemma DefaultIsItself(s: State)
    requires Valid(s)
    ensures Resolve(s, DEFAULT) != Some(DROP_ALL)
  {
    ReservedAreWords();
  }

  /** Records after an update: one of its own, and those of other ports. */
  lemma ClearAfter(s: State, secured: State, t: State, p: PortId, u: Uuid, recorded: set<string>)
    requires p in t.ports && Members(Words(t.ports[p].record)) == recorded && OnlyPort(s, t, p)
    requires t.names == secured.names && t.groups.Keys == secured.groups.Keys
    requires forall r :: r in recorded ==> r != DROP_ALL && Resolve(secured, r) != Some(DROP_ALL)
    requires forall q, r :: Recorded(s, q, r) ==> Elsewhere(s, u, r)
    requires forall r :: Elsewhere(s, u, r) ==> Resolve(secured, r) != Some(DROP_ALL)
    ensures Clear(t)
  {
    hide Words;
    forall q, r | Recorded(t, q, r)
      ensures r != DROP_ALL && Resolve(t, r) != Some(DROP_ALL)
    {
      assert Resolve(t, r) == Resolve(secured, r);
      if q == p {
        assert r in recorded;
      } else {
        assert Recorded(s, q, r) && Elsewhere(s, u, r);
      }
    }
  }

  lemma UpdateClears(s: State, p: PortId, mac: string, addressed: bool, security: Option<bool>,
                     groups: Option<seq<string>>, f: Fresh)
    requires Valid(s) && NeverSeen(s, f) && Clear(s) && Unnamed(s, groups, f)
    ensures Clear(PortUpdated(s, p, mac, addressed, security, groups, f).0)
    ensures PortUpdated(s, p, mac, addressed, security, groups, f).1 && p in s.ports ==>
              UpdateMarks(s, SecurityUpdated(s, p, mac, security, f), p, security, groups)
  {
    if PortUpdated(s, p, mac, addressed, security, groups, f).1 {
      hide SecurityUpdated, PortUpdated, Installed, Removed, RecordedAfter, Words, Valid;
      UpdateSucceeds(s, p, mac, addressed, security, groups, f);
      var secured, t := PortUpdatedKeeps(s, p, mac, security, groups, f);
      AskedElsewhere(s, secured, p, mac, security, groups, f);
      NoneIsDropAll(secured, DROP_ALL, Installed(s, p, security, groups));
      NoneIsDropAll(secured, DROP_ALL, Removed(s, p, security, groups));
      forall r | Elsewhere(s, f.dropUuid, r)
        ensures Resolve(secured, r) != Some(DROP_ALL)
      {
        UpdatedResolves(s, p, mac, security, f, r);
      }
      RecordedElsewhere(s, f.dropUuid);
      ClearAfter(s, secured, t, p, f.dropUuid, RecordedAfter(s, p, security, groups));
    } else {
      FailedUpdate(s, p, mac, addressed, security, groups, f);
    }
  }

  /** Where ports stay, and what is recorded leads elsewhere. */
  lemma ClearAlike(s: State, t: State)
    requires Clear(s)
    requires forall q :: q in t.ports ==> q in s.ports && t.ports[q] == s.ports[q]
    requires forall q, r :: Recorded(t, q, r) && Resolve(s, r) != Some(DROP_ALL) ==> Resolve(t, r) != Some(DROP_ALL)
    ensures Clear(t)
  {
    hide Words, Resolve;
    forall q, r | Recorded(t, q, r)
      ensures Recorded(s, q, r)
    {
    }
  }

  lemma AddGroupClears(s: State, name: string, g: Name, u: Uuid, ids: seq<AclId>)
    requires Valid(s) && Clear(s) && Unrecorded(s, u)
    requires NewUuid(s, u) && IsWord(g) && g != DROP_ALL && g !in s.names && g != u && |ids| == 2
    ensures Clear(GroupAdded(s, name, g, u, ids).0)
  {
    hide OpenAcl, Table;
    ReservedAreWords();
    var h := if name == DEFAULT || name == DROP_ALL then name else g;
    var t := Provisioned(s, h, u, ids, EgressAcls(h));
    ProvisionedKeeps(s, h, u, ids, EgressAcls(h));
    ProvisionedIn(s, h, u, ids, EgressAcls(h));
    RecordedElsewhere(s, u);
    forall q, r | Recorded(t, q, r)
      ensures Resolve(t, r) != Some(DROP_ALL)
    {
      assert Recorded(s, q, r);
      ProvisionedResolves(s, h, u, ids, EgressAcls(h), r, DROP_ALL);
    }
    ClearAlike(s, t);
  }

  lemma DeleteGroupClears(s: State, ref: string)
    requires Valid(s) && Clear(s)
    ensures Clear(GroupDeleted(s, ref).0)
  {
    ClearAlike(s, GroupDeleted(s, ref).0);
  }

  lemma DeletePortClears(s: State, p: PortId)
    requires Clear(s)
    ensures Clear(PortDeleted(s, p).0)
  {
    ClearAlike(s, PortDeleted(s, p).0);
  }

  lemma RuleCallsClear(s: State, op: Op)
    requires Valid(s) && Clear(s) && Legal(s, op) && (op.UpdateGroup? || op.AddRule? || op.RemoveRule?)
    ensures Clear(Step(s, op).0)
  {
    hide RuleAcl, WithRemote;
    var t := Step(s, op).0;
    RuleCallsKeepPorts(s, op);
    ClearAlike(s, t);
  }

  lemma RuleCallsKeepPorts(s: State, op: Op)
    requires Valid(s) && Legal(s, op) && (op.UpdateGroup? || op.AddRule? || op.RemoveRule?)
    ensures var t := Step(s, op).0;
            && t.ports == s.ports && t.names == s.names && t.groups.Keys == s.groups.Keys
            && forall g :: g in s.groups ==> t.groups[g].ports == s.groups[g].ports
  {
    hide RuleAcl, WithRemote, HasRule, SameRule, Unlike, NewIds, Valid;
  }

  lemma ActivatedResolves(s: State, p: PortId, f: Fresh, r: string)
    requires Valid(s) && IsFresh(s, f) && Elsewhere(s, f.dropUuid, r)
    ensures Resolve(Activated(s, p, f, true), r) != Some(DROP_ALL)
  {
    hide Secured;
    SecuredResolves(s, f, r);
  }

  /** The groups asked for, and those recorded before, are not DropAll after activation. */
  lemma NewAsksElsewhere(s: State, created: State, active: State, p: PortId, secure: bool,
                         groups: Option<seq<string>>, refs: seq<string>, f: Fresh)
    requires Valid(created) && NeverSeen(s, f) && Clear(s) && Unnamed(s, groups, f) && p !in s.ports
    requires created == s.(ports := s.ports[p := PortRow("", [])])
    requires active == if secure then Activated(created, p, f, true) else created
    requires Valid(active)
    requires refs == if groups.Some? then groups.value else if secure then [DEFAULT] else []
    ensures forall r :: r in Members(refs) ==> r != DROP_ALL && Resolve(active, r) != Some(DROP_ALL)
    ensures forall q, r :: Recorded(created, q, r) ==> Resolve(active, r) != Some(DROP_ALL)
  {
    hide Activated, Valid;
    ReservedAreWords();
    RecordedElsewhere(s, f.dropUuid);
    forall r | Elsewhere(s, f.dropUuid, r)
      ensures Resolve(active, r) != Some(DROP_ALL)
    {
      assert Elsewhere(created, f.dropUuid, r) && IsFresh(created, f);
      if secure {
        ActivatedResolves(created, p, f, r);
      }
    }
    forall q, r | Recorded(created, q, r)
      ensures Elsewhere(s, f.dropUuid, r)
    {
      assert Words("") == [];
      assert Recorded(s, q, r);
    }
    forall r | r in Members(refs)
      ensures r != DROP_ALL && Resolve(active, r) != Some(DROP_ALL)
    {
      if groups.Some? {
        assert r in groups.value;
        assert Elsewhere(s, f.dropUuid, r);
      } else {
        DefaultIsItself(active);
      }
    }
  }

  lemma JoiningClears(s: State, active: State, p: PortId, refs: seq<string>, row: PortRow)
    requires Valid(active) && active.ports == s.ports && p in s.ports
    requires Resolvable(active, Members(refs)) && row.record == Join(refs, " ")
    requires forall r :: r in Members(refs) ==> r != DROP_ALL && Resolve(active, r) != Some(DROP_ALL)
    requires forall q, r :: Recorded(s, q, r) ==> r != DROP_ALL && Resolve(active, r) != Some(DROP_ALL)
    ensures var joined := Joined(active, Resolved(active, Members(refs)), p);
            Clear(joined.(ports := joined.ports[p := row]))
  {
    hide Words, Join;
    var gs := Resolved(active, Members(refs));
    var joined := Joined(active, gs, p);
    var t := joined.(ports := joined.ports[p := row]);
    JoinedKeeps(active, gs, p);
    RecordReadsBack(active, refs);
    forall q, r | Recorded(t, q, r)
      ensures r != DROP_ALL && Resolve(t, r) != Some(DROP_ALL)
    {
      assert Resolve(t, r) == Resolve(active, r);
      if q == p {
        assert r in Members(refs);
      } else {
        assert Recorded(s, q, r);
      }
    }
  }

  /** Making a port. */
  lemma AddPortClears(s: State, p: PortId, mac: string, addressed: bool, network: bool,
                      security: Option<bool>, groups: Option<seq<string>>, f: Fresh)
    requires Valid(s) && NeverSeen(s, f) && Clear(s) && Unnamed(s, groups, f)
    ensures Clear(PortAdded(s, p, mac, addressed, network, security, groups, f).0)
    ensures AdditionMarks(s, network, security, groups)
  {
    hide Activated, Words, Join, Resolvable, Resolved, Valid, Joined;
    if groups.Some? {
      NoneIsDropAll(s, DROP_ALL, Members(groups.value));
    }
    if p !in s.ports {
      var created := s.(ports := s.ports[p := PortRow("", [])]);
      NewPortValid(s, p);
      assert Clear(created) by { CreatedClears(s, p); }
      if addressed {
        var secure := if security.Some? then security.value else network;
        var refs := if groups.Some? then groups.value else if secure then [DEFAULT] else [];
        var active := if secure then Activated(created, p, f, true) else created;
        if secure {
          ActivatedKeeps(created, p, f, true);
        }
        if Resolvable(active, Members(refs)) {
          NewAsksElsewhere(s, created, active, p, secure, groups, refs, f);
          JoiningClears(created, active, p, refs, PortRow(Join(refs, " "), if secure then [mac] else []));
        }
      }
    }
  }

  lemma CreatedClears(s: State, p: PortId)
    requires Clear(s)
    ensures Clear(s.(ports := s.ports[p := PortRow("", [])]))
  {
    var t := s.(ports := s.ports[p := PortRow("", [])]);
    assert Words("") == [];
    forall q, r | Recorded(t, q, r)
      ensures Recorded(s, q, r) && Resolve(t, r) == Resolve(s, r)
    {
    }
  }

  /** A call that does not name DropAll is a marking one, and leaves no record that leads there: also where
      a record and the membership of a port have come apart. */
  lemma StepClears(s: State, op: Op)
    requires Valid(s) && Clear(s) && Legal(s, op) && Avoids(s, op)
    ensures Clear(Step(s, op).0) && Marking(s, op)
  {
    hide PortAdded, PortUpdated, PortDeleted, GroupAdded, GroupDeleted, GroupUpdated, RuleAdded, RuleRemoved;
    hide AdditionMarks, UpdateMarks, Clear, Valid, NewIds, NewUuid;
    match op
    case AddPort(p, mac, addressed, network, security, groups, f) =>
      AddPortClears(s, p, mac, addressed, network, security, groups, f);
    case UpdatePort(p, mac, addressed, security, groups, f) =>
      UpdateClears(s, p, mac, addressed, security, groups, f);
    case DeletePort(p) => DeletePortClears(s, p);
    case AddGroup(name, g, u, ids) => AddGroupClears(s, name, g, u, ids);
    case DeleteGroup(ref) => DeleteGroupClears(s, ref);
    case _ => RuleCallsClear(s, op);
  }

  ghost predicate AvoidingRun(s: State, ops: seq<Op>)
    requires LegalRun(s, ops)
    decreases |ops|
  {
    ops == [] || (Avoids(s, ops[0]) && AvoidingRun(Step(s, ops[0]).0, ops[1..]))
  }

  /** A run whose callers never name DropAll keeps the marks. */
  lemma {:induction false} AvoidingIsMarking(s: State, ops: seq<Op>)
    requires Valid(s) && Clear(s) && LegalRun(s, ops) && AvoidingRun(s, ops)
    ensures MarkingRun(s, ops)
    decreases |ops|
  {
    hide Step, Valid, Clear, Marking, Avoids;
    if ops != [] {
      StepValid(s, ops[0]);
      StepClears(s, ops[0]);
      AvoidingIsMarking(Step(s, ops[0]).0, ops[1..]);
    }
  }

  /** So from an empty database, where no caller names DropAll, a port has a `port_security` column that is
      not empty exactly when it is a member of DropAll. */
  lemma ReachableTracks(ops: seq<Op>, p: PortId)
    requires LegalRun(EMPTY, ops) && AvoidingRun(EMPTY, ops)
    requires p in Run(EMPTY, ops).ports
    ensures Run(EMPTY, ops).ports[p].portSecurity != [] <==> In(Run(EMPTY, ops), DROP_ALL, p)
  {
    hide Run, LegalRun, AvoidingRun, MarkingRun;
    EmptyIsConsistent();
    assert Clear(EMPTY);
    AvoidingIsMarking(EMPTY, ops);
    ReachableMarks(ops, p);
  }

  lemma AskedSucceeds(s: State, p: PortId, f: Fresh)
    requires |f.dropIds| == 2 && |f.defaultIds| == 4 && p in s.ports && Resolve(s, DROP_ALL).Some? && Had(s, p) == {}
    ensures var (t, ok) := PortUpdated(s, p, "", true, None, Some([DROP_ALL]), f);
            ok && t.names == s.names && t.groups.Keys == s.groups.Keys
  {
    hide Words, NewRecord, Table;
    assert Members([DROP_ALL]) == {DROP_ALL};
  }

  /** A caller who names DropAll puts a port into it whose `port_security` stays empty. */
  lemma NamingDropAllUntracks(s: State, p: PortId, f: Fresh)
    requires Valid(s) && IsFresh(s, f) && Marks(s) && DROP_ALL in s.groups && p in s.ports
    requires s.ports[p] == PortRow("", [])
    ensures var (t, ok) := PortUpdated(s, p, "", true, None, Some([DROP_ALL]), f);
            ok && t.ports[p].portSecurity == [] && In(t, DROP_ALL, p) && !Marks(t)
  {
    WordsOfDefault();
    assert Members([DROP_ALL]) == {DROP_ALL} && Had(s, p) == {};
    assert Resolve(s, DROP_ALL) == Some(DROP_ALL);
    AskedSucceeds(s, p, f);
    hide PortUpdated, Valid;
    var t := PortUpdated(s, p, "", true, None, Some([DROP_ALL]), f).0;
    UpdatedPortIs(s, p, "", None, Some([DROP_ALL]), f);
    assert Resolve(t, DROP_ALL) == Some(DROP_ALL);
    assert In(t, DROP_ALL, p) && !Marked(t, p);
  }
}
