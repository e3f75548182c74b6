/** Whole runs of the port and security group calls. */
module SecurityRuns {
  import opened Text
  import opened PortGroups
  import opened SecurityGroups
  import opened SecurityInvariants

  // ---------------------------------------------------------------------------------------------
  // Records never dangle
  // ---------------------------------------------------------------------------------------------

  /** An update does not take the port out of a group it records. */
  ghost predicate Careful(s: State, op: Op)
    requires Legal(s, op)
  {
    op.UpdatePort? && Step(s, op).1 ==>
      NothingLost(s, SecurityUpdated(s, op.p, op.mac, op.portSecurity, op.rows), op.p, op.portSecurity, op.groups)
  }

  /** One call keeps every record backed by membership exactly when it is careful. */
  lemma StepConsistentIffCareful(s: State, op: Op)
    requires Valid(s) && Consistent(s) && Legal(s, op)
    ensures Valid(Step(s, op).0)
    ensures Consistent(Step(s, op).0) <==> Careful(s, op)
  {
    match op
    case AddPort(p, mac, addressed, network, security, groups, f) =>
      AddPortConsistent(s, p, mac, addressed, network, security, groups, f);
    case UpdatePort(p, mac, addressed, security, groups, f) =>
      if Step(s, op).1 {
        UpdateConsistentIffNothingLost(s, p, mac, security, groups, f);
      }
    case DeletePort(p) => DeletePortConsistent(s, p);
    case AddGroup(name, g, u, ids) => AddGroupConsistent(s, name, g, u, ids);
    case DeleteGroup(ref) => DeleteGroupConsistent(s, ref);
    case _ => RuleCallsConsistent(s, op);
  }

  /** Every call of the run is legal where it happens, and meets `ok` there. */
  ghost predicate LegalRun(s: State, ops: seq<Op>)
    decreases |ops|
  {
    ops == [] || (Legal(s, ops[0]) && LegalRun(Step(s, ops[0]).0, ops[1..]))
  }

  ghost function Run(s: State, ops: seq<Op>): State
    requires LegalRun(s, ops)
    decreases |ops|
  {
    if ops == [] then s else Run(Step(s, ops[0]).0, ops[1..])
  }

  ghost predicate CarefulRun(s: State, ops: seq<Op>)
    requires LegalRun(s, ops)
    decreases |ops|
  {
    ops == [] || (Careful(s, ops[0]) && CarefulRun(Step(s, ops[0]).0, ops[1..]))
  }

  // One identifier for each group

  /** The callers' vocabulary: its identifiers find different groups, none of them DropAll. */
  ghost predicate Single(s: State, ids: set<string>) {
    && (forall a, b :: a in ids && b in ids && Resolve(s, a).Some? && Resolve(s, a) == Resolve(s, b) ==> a == b)
    && (forall a :: a in ids ==> Resolve(s, a) != Some(DROP_ALL))
  }

  predicate Uses(groups: Option<seq<string>>, ids: set<string>) {
    groups.Some? ==> Members(groups.value) <= ids
  }

  predicate Speaks(op: Op, ids: set<string>) {
    match op
    case AddPort(_, _, _, _, _, groups, _) => Uses(groups, ids)
    case UpdatePort(_, _, _, _, groups, _) => Uses(groups, ids)
    case _ => true
  }

  ghost predicate RecordsWithin(s: State, ids: set<string>) {
    forall p, r :: Recorded(s, p, r) ==> r in ids
  }

  /** Callers refer to each group by one identifier all along the run, and to Default by name. */
  ghost predicate OneIdentifierRun(s: State, ops: seq<Op>, ids: set<string>)
    requires LegalRun(s, ops)
    decreases |ops|
  {
    ops == [] ||
    (Speaks(ops[0], ids) && Single(Step(s, ops[0]).0, ids) && OneIdentifierRun(Step(s, ops[0]).0, ops[1..], ids))
  }

  lemma SameNamesResolve(s: State, t: State, ids: set<string>)
    requires s.names == t.names && s.groups.Keys == t.groups.Keys
    ensures Single(s, ids) <==> Single(t, ids)
  {
    assert forall r :: Resolve(s, r) == Resolve(t, r);
  }

  lemma UpdateSpeaks(s: State, p: PortId, mac: string, addressed: bool, security: Option<bool>,
                     groups: Option<seq<string>>, f: Fresh, ids: set<string>)
    requires Valid(s) && Consistent(s) && IsFresh(s, f) && RecordsWithin(s, ids) && DEFAULT in ids && Uses(groups, ids)
    requires Single(PortUpdated(s, p, mac, addressed, security, groups, f).0, ids)
    ensures var (t, ok) := PortUpdated(s, p, mac, addressed, security, groups, f);
            && RecordsWithin(t, ids)
            && (ok ==> NothingLost(s, SecurityUpdated(s, p, mac, security, f), p, security, groups))
  {
    hide Activated, Secured, Provisioned, RecordedAfter, Removed, Installed;
    var ok := PortUpdated(s, p, mac, addressed, security, groups, f).1;
    if ok {
      var secured, t := PortUpdatedKeeps(s, p, mac, security, groups, f);
      HadWithin(s, p, security, groups, ids);
      SameNamesResolve(secured, t, ids);
      OneIdentifierLosesNothing(s, secured, p, security, groups);
      forall q, r | Recorded(t, q, r)
        ensures r in ids
      {
        if q == p {
          assert r in RecordedAfter(s, p, security, groups);
        } else {
          assert Recorded(s, q, r);
        }
      }
    }
  }

  lemma HadWithin(s: State, p: PortId, security: Option<bool>, groups: Option<seq<string>>, ids: set<string>)
    requires p in s.ports && RecordsWithin(s, ids) && DEFAULT in ids && Uses(groups, ids)
    ensures Had(s, p) <= ids && RecordedAfter(s, p, security, groups) <= ids
  {
    forall r | r in Had(s, p)
      ensures r in ids
    {
      assert Recorded(s, p, r);
    }
  }

  lemma AddPortSpeaks(s: State, p: PortId, mac: string, addressed: bool, network: bool, security: Option<bool>,
                      groups: Option<seq<string>>, f: Fresh, ids: set<string>)
    requires Valid(s) && IsFresh(s, f) && RecordsWithin(s, ids) && DEFAULT in ids && Uses(groups, ids)
    ensures RecordsWithin(PortAdded(s, p, mac, addressed, network, security, groups, f).0, ids)
  {
    hide Activated, Resolvable, Resolved, Join, Valid;
    var t := PortAdded(s, p, mac, addressed, network, security, groups, f).0;
    if p !in s.ports {
      var created := s.(ports := s.ports[p := PortRow("", [])]);
      ChangedTable(s, created, p);
      assert Words("") == [];
      if addressed {
        var secure := if security.Some? then security.value else network;
        var refs := if groups.Some? then groups.value else if secure then [DEFAULT] else [];
        var active := if secure then Activated(created, p, f, true) else created;
        NewPortValid(s, p);
        if secure {
          ActivatedKeeps(created, p, f, true);
        }
        if Resolvable(active, Members(refs)) {
          RecordReadsBack(active, refs);
          assert Members(refs) <= ids;
        }
      }
      forall q, r | Recorded(t, q, r)
        ensures r in ids
      {
        if q != p {
          assert Recorded(s, q, r);
        } else if t.ports[p].record != "" {
          assert r in Members(Words(t.ports[p].record));
        }
      }
    }
  }

  lemma ChangedTable(s: State, t: State, p: PortId)
    requires t.ports == s.ports[p := PortRow("", [])]
    ensures forall q, r :: q != p && Recorded(t, q, r) ==> Recorded(s, q, r)
  {
  }

  lemma StepSpeaks(s: State, op: Op, ids: set<string>)
    requires Valid(s) && Consistent(s) && Legal(s, op) && RecordsWithin(s, ids) && DEFAULT in ids
    requires Speaks(op, ids) && Single(Step(s, op).0, ids)
    ensures Careful(s, op) && RecordsWithin(Step(s, op).0, ids)
  {
    hide PortAdded, PortUpdated, NothingLost;
    match op
    case AddPort(p, mac, addressed, network, security, groups, f) =>
      AddPortSpeaks(s, p, mac, addressed, network, security, groups, f, ids);
    case UpdatePort(p, mac, addressed, security, groups, f) =>
      UpdateSpeaks(s, p, mac, addressed, security, groups, f, ids);
    case _ =>
      PortsOnlyGo(s, op);
      forall q, r | Recorded(Step(s, op).0, q, r)
        ensures r in ids
      {
        assert Recorded(s, q, r);
      }
  }

  lemma PortsOnlyGo(s: State, op: Op)
    requires Legal(s, op) && !op.AddPort? && !op.UpdatePort?
    ensures forall q :: q in Step(s, op).0.ports ==> q in s.ports && Step(s, op).0.ports[q] == s.ports[q]
  {
    hide RuleAcl, WithRemote, OpenAcl;
  }

  /** One identifier for each group makes every update of the run careful. */
  lemma {:induction false} OneIdentifierIsCareful(s: State, ops: seq<Op>, ids: set<string>)
    requires Valid(s) && Consistent(s) && LegalRun(s, ops) && RecordsWithin(s, ids) && DEFAULT in ids
    requires OneIdentifierRun(s, ops, ids)
    ensures CarefulRun(s, ops)
    decreases |ops|
  {
    hide Step;
    if ops != [] {
      StepSpeaks(s, ops[0], ids);
      StepConsistentIffCareful(s, ops[0]);
      OneIdentifierIsCareful(Step(s, ops[0]).0, ops[1..], ids);
    }
  }

  const EMPTY: State := State(map[], map[], map[])

  /** Every recorded group exists and has the port as a member, all along the run. */
  ghost predicate ConsistentAlong(s: State, ops: seq<Op>)
    requires LegalRun(s, ops)
    decreases |ops|
  {
    Consistent(s) && (ops == [] || ConsistentAlong(Step(s, ops[0]).0, ops[1..]))
  }

  lemma {:induction false} ConsistentAtEnd(s: State, ops: seq<Op>)
    requires Valid(s) && LegalRun(s, ops) && ConsistentAlong(s, ops)
    ensures Valid(Run(s, ops)) && Consistent(Run(s, ops))
    decreases |ops|
  {
    hide Step, Consistent, Valid;
    if ops != [] {
      StepValid(s, ops[0]);
      ConsistentAtEnd(Step(s, ops[0]).0, ops[1..]);
    }
  }

  lemma NotConsistentAlong(s: State, ops: seq<Op>)
    requires LegalRun(s, ops) && !Consistent(s)
    ensures !ConsistentAlong(s, ops)
  {
    hide Consistent, Step;
  }

  /** Every record is backed by membership all along a run exactly when no update of it loses one. */
  lemma {:induction false} RunConsistentIff(s: State, ops: seq<Op>)
    requires Valid(s) && Consistent(s) && LegalRun(s, ops)
    ensures ConsistentAlong(s, ops) <==> CarefulRun(s, ops)
    decreases |ops|
  {
    hide Step, Consistent, Valid, Careful;
    if ops != [] {
      StepConsistentIffCareful(s, ops[0]);
      StepValid(s, ops[0]);
      if Consistent(Step(s, ops[0]).0) {
        RunConsistentIff(Step(s, ops[0]).0, ops[1..]);
      } else {
        NotConsistentAlong(Step(s, ops[0]).0, ops[1..]);
      }
    }
  }

  lemma EmptyIsConsistent()
    ensures Valid(EMPTY) && Consistent(EMPTY)
  {
  }

  /** From the empty database, with one identifier for each group: nothing recorded ever dangles. */
  lemma ReachableConsistent(ops: seq<Op>, ids: set<string>, p: PortId, r: string)
    requires LegalRun(EMPTY, ops) && DEFAULT in ids && OneIdentifierRun(EMPTY, ops, ids)
    requires Recorded(Run(EMPTY, ops), p, r)
    ensures InGroup(Run(EMPTY, ops), p, r)
  {
    EmptyIsConsistent();
    OneIdentifierIsCareful(EMPTY, ops, ids);
    RunConsistentIff(EMPTY, ops);
    ConsistentAtEnd(EMPTY, ops);
  }

  /** So the group a deletion removes is on no record: the check that it is unused is enough. */
  lemma DeletedGroupIsUnrecorded(ops: seq<Op>, ref: string, p: PortId, r: string)
    requires LegalRun(EMPTY, ops) && CarefulRun(EMPTY, ops)
    requires GroupDeleted(Run(EMPTY, ops), ref).1
    requires Recorded(Run(EMPTY, ops), p, r)
    ensures Resolve(Run(EMPTY, ops), r) != Resolve(Run(EMPTY, ops), ref)
    ensures InGroup(GroupDeleted(Run(EMPTY, ops), ref).0, p, r)
  {
    var s := Run(EMPTY, ops);
    EmptyIsConsistent();
    RunConsistentIff(EMPTY, ops);
    ConsistentAtEnd(EMPTY, ops);
    DeleteGroupConsistent(s, ref);
    assert InGroup(s, p, r);
    assert Recorded(GroupDeleted(s, ref).0, p, r);
  }

  /** An update of a consistent port never fails on a group recorded earlier: only a requested
      reference that finds nothing makes it fail. */
  lemma UpdateFailsOnlyOnRequest(s: State, p: PortId, mac: string, security: Option<bool>,
                                 groups: Option<seq<string>>, f: Fresh)
    requires Valid(s) && Consistent(s) && IsFresh(s, f) && p in s.ports
    ensures PortUpdated(s, p, mac, true, security, groups, f).1 <==>
            (groups.Some? ==> forall r :: r in groups.value ==>
               Resolve(SecurityUpdated(s, p, mac, security, f), r).Some?)
  {
    hide Activated, Secured, Provisioned;
    var secured := SecurityUpdated(s, p, mac, security, f);
    SecurityUpdatedKeeps(s, p, mac, security, f);
    HadResolves(s, secured, p);
    if groups == None && security == Some(true) {
      ActivatedKeeps(s, p, f, false);
      DefaultResolves(secured);
    }
    UpdateFails(secured, Had(s, p), Requested(security, groups));
    if groups.Some? {
      assert forall r :: r in groups.value <==> r in Members(groups.value);
    }
  }

  lemma DefaultResolves(s: State)
    requires Valid(s) && DEFAULT in s.groups
    ensures Resolve(s, DEFAULT) == Some(DEFAULT)
  {
  }

  lemma UpdateFails(secured: State, had: set<string>, wanted: Option<set<string>>)
    requires Resolvable(secured, had)
    ensures wanted.Some? ==>
              (Resolvable(secured, (wanted.value - had) + (had - wanted.value)) <==> Resolvable(secured, wanted.value))
  {
    if wanted.Some? && Resolvable(secured, (wanted.value - had) + (had - wanted.value)) {
      WantedResolves(secured, had, wanted.value);
    }
  }

  // ---------------------------------------------------------------------------------------------
  // The tables stay valid
  // ---------------------------------------------------------------------------------------------

  lemma AddPortValid(s: State, p: PortId, mac: string, addressed: bool, network: bool,
                     security: Option<bool>, groups: Option<seq<string>>, f: Fresh)
    requires Valid(s) && IsFresh(s, f)
    ensures Valid(PortAdded(s, p, mac, addressed, network, security, groups, f).0)
  {
    hide Valid, Activated, NewIds, Resolved, Resolvable;
    if p !in s.ports {
      var created := s.(ports := s.ports[p := PortRow("", [])]);
      var secure := if security.Some? then security.value else network;
      var refs := if groups.Some? then groups.value else if secure then [DEFAULT] else [];
      var active := if secure then Activated(created, p, f, true) else created;
      NewPortValid(s, p);
      if addressed {
        if secure {
          StillFresh(s, created, f);
          ActivatedKeeps(created, p, f, true);
        }
        var joined := Joined(active, Resolved(active, Members(refs)), p);
        JoinedKeeps(active, Resolved(active, Members(refs)), p);
        ChangedPortKeeps(joined, p, PortRow(Join(refs, " "), if secure then [mac] else []));
      }
    }
  }

  lemma StillFresh(s: State, t: State, f: Fresh)
    requires IsFresh(s, f) && s.groups == t.groups && s.names == t.names
    ensures IsFresh(t, f)
  {
  }

  lemma UpdatePortValid(s: State, p: PortId, mac: string, addressed: bool,
                        security: Option<bool>, groups: Option<seq<string>>, f: Fresh)
    requires Valid(s) && IsFresh(s, f)
    ensures Valid(PortUpdated(s, p, mac, addressed, security, groups, f).0)
  {
    hide Valid, SecurityUpdated, Resolved, Resolvable, NewRecord;
    if p in s.ports && addressed {
      var secured := SecurityUpdated(s, p, mac, security, f);
      SecurityUpdatedKeeps(s, p, mac, security, f);
      SecurityUpdatedPorts(s, p, mac, security, f);
      var wanted := Requested(security, groups);
      if wanted.Some? {
        var had := Members(Words(s.ports[p].record));
        MovedKeeps(secured, p, Resolved(secured, wanted.value - had), Resolved(secured, had - wanted.value),
                   NewRecord(groups, had));
      }
    }
  }

  lemma RowChangeValid(s: State, g: Name, row: Group)
    requires Valid(s) && g in s.groups && row.uuid == s.groups[g].uuid && row.ports == s.groups[g].ports
    ensures Valid(WithGroup(s, g, row))
  {
  }

  lemma RuleCallsValid(s: State, op: Op)
    requires Valid(s) && Legal(s, op) && (op.UpdateGroup? || op.AddRule? || op.RemoveRule?)
    ensures Valid(Step(s, op).0)
  {
    hide RuleAcl, WithRemote, HasRule, Valid, SameRule;
    var t := Step(s, op).0;
    if Step(s, op).1 {
      var ref := if op.RemoveRule? then s.groups[op.g].acls[op.id].owner else op.ref;
      var g := Resolve(s, ref).value;
      assert t == WithGroup(s, g, t.groups[g]);
      RowChangeValid(s, g, t.groups[g]);
    }
  }

  lemma GroupCallsValid(s: State, op: Op)
    requires Valid(s) && Legal(s, op) && (op.DeletePort? || op.AddGroup? || op.DeleteGroup?)
    ensures Valid(Step(s, op).0)
  {
    hide OpenAcl, Table;
    if op.AddGroup? {
      ReservedAreWords();
      var h := if op.name == DEFAULT || op.name == DROP_ALL then op.name else op.generated;
      ProvisionedValid(s, h, op.uuid, op.ids, EgressAcls(h));
    }
  }

  lemma StepValid(s: State, op: Op)
    requires Valid(s) && Legal(s, op)
    ensures Valid(Step(s, op).0)
  {
    hide PortAdded, PortUpdated, Valid;
    match op
    case AddPort(p, mac, addressed, network, security, groups, f) =>
      AddPortValid(s, p, mac, addressed, network, security, groups, f);
    case UpdatePort(p, mac, addressed, security, groups, f) =>
      UpdatePortValid(s, p, mac, addressed, security, groups, f);
    case DeletePort(p) => GroupCallsValid(s, op);
    case AddGroup(name, g, u, ids) => GroupCallsValid(s, op);
    case DeleteGroup(ref) => GroupCallsValid(s, op);
    case UpdateGroup(ref) => RuleCallsValid(s, op);
    case AddRule(ref, rule, id) => RuleCallsValid(s, op);
    case RemoveRule(g, id) => RuleCallsValid(s, op);
  }
}
