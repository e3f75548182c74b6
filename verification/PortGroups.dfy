/** The Port_Group, ACL and Logical_Switch_Port tables of the OVN northbound database, as far as
    security groups use them, and the commands the provider queues on them.

    A group row is found by its uuid or by its name; names are unique.  `Port_Group.ports` holds weak
    references, and the ACLs of a group go with it.  A queue of commands takes effect as a whole or,
    when one of them fails, not at all. */
module PortGroups {
  import opened Text
  import opened Matches

  type PortId = Port
  type Uuid = string
  type Name = string
  type AclId = nat

  datatype Action = Allow | Drop

  /** `owner` is the group name recorded in the external ids of the ACL. */
  datatype Acl = Acl(direction: Direction, priority: nat, text: string, action: Action, owner: Name)

  /** `record` is the list of groups kept as a string on the port. */
  datatype PortRow = PortRow(record: string, portSecurity: seq<string>)

  datatype Group = Group(uuid: Uuid, ports: set<PortId>, acls: map<AclId, Acl>, revision: nat)

  /** `names` finds the name of a group by its uuid. */
  datatype State = State(ports: map<PortId, PortRow>, groups: map<Name, Group>, names: map<Uuid, Name>)

  /** A group is looked up by uuid first, then by name. */
  function Resolve(s: State, ref: string): Option<Name> {
    if ref in s.names then Some(s.names[ref])
    else if ref in s.groups then Some(ref)
    else None
  }

  /** Every reference finds a group that is there, and uuids cannot be taken for names. */
  ghost predicate Indexed(s: State) {
    && (forall u :: u in s.names ==>
        IsWord(u) && u !in s.groups && s.names[u] in s.groups && s.groups[s.names[u]].uuid == u)
    && (forall g :: g in s.groups ==> IsWord(g) && s.groups[g].uuid in s.names && s.names[s.groups[g].uuid] == g)
    && (forall g :: g in s.groups ==> s.groups[g].ports <= s.ports.Keys)
  }

  predicate SameRule(a: Acl, b: Acl) {
    a.direction == b.direction && a.priority == b.priority && a.text == b.text
  }

  /** The ACLs that do not say the same as `a`. */
  function Unlike(acls: map<AclId, Acl>, a: Acl): map<AclId, Acl> {
    map i | i in acls && !SameRule(acls[i], a) :: acls[i]
  }

  predicate HasRule(g: Group, a: Acl) {
    exists id :: id in g.acls && SameRule(g.acls[id], a)
  }

  datatype Command =
    | LspAdd(port: PortId)
    | PgAdd(name: Name, uuid: Uuid)
    | PgAclAdd(ref: string, id: AclId, acl: Acl)
    | PgAddPorts(ref: string, port: PortId)
    | PgDelPorts(ref: string, port: PortId)
    | SetPortSecurity(port: PortId, value: seq<string>)
    | SetRecord(port: PortId, record: string)
    | LspDel(port: PortId)
    | PgDel(ref: string)
    | PgAclDel(ref: string, direction: Direction, priority: nat, text: string)
    | SetRevision(ref: string, revision: nat)

  function WithGroup(s: State, g: Name, row: Group): State {
    s.(groups := s.groups[g := row])
  }

  /** What one command does, or none when it fails.  `ports` of a group are weak references. */
  function Apply(s: State, c: Command): Option<State> {
    match c
    case LspAdd(p) =>
      if p in s.ports then None else Some(s.(ports := s.ports[p := PortRow("", [])]))
    case PgAdd(g, u) =>
      if g in s.groups then None
      else Some(State(s.ports, s.groups[g := Group(u, {}, map[], 1)], s.names[u := g]))
    case PgAclAdd(ref, id, acl) =>
      var g := Resolve(s, ref);
      if g == None || g.value !in s.groups || HasRule(s.groups[g.value], acl) then None
      else Some(WithGroup(s, g.value, s.groups[g.value].(acls := s.groups[g.value].acls[id := acl])))
    case PgAddPorts(ref, p) =>
      var g := Resolve(s, ref);
      if g == None || g.value !in s.groups || p !in s.ports then None
      else Some(WithGroup(s, g.value, s.groups[g.value].(ports := s.groups[g.value].ports + {p})))
    case PgDelPorts(ref, p) =>
      var g := Resolve(s, ref);
      if g == None || g.value !in s.groups then None
      else Some(WithGroup(s, g.value, s.groups[g.value].(ports := s.groups[g.value].ports - {p})))
    case SetPortSecurity(p, value) =>
      if p !in s.ports then None else Some(s.(ports := s.ports[p := s.ports[p].(portSecurity := value)]))
    case SetRecord(p, record) =>
      if p !in s.ports then None else Some(s.(ports := s.ports[p := s.ports[p].(record := record)]))
    case LspDel(p) =>
      if p !in s.ports then None
      else Some(State(s.ports - {p}, map g | g in s.groups :: s.groups[g].(ports := s.groups[g].ports - {p}), s.names))
    case PgDel(ref) =>
      var g := Resolve(s, ref);
      if g == None || g.value !in s.groups then None
      else Some(State(s.ports, s.groups - {g.value}, s.names - {s.groups[g.value].uuid}))
    case PgAclDel(ref, direction, priority, text) =>
      var g := Resolve(s, ref);
      if g == None || g.value !in s.groups then None
      else
        var acls := s.groups[g.value].acls;
        Some(WithGroup(s, g.value, s.groups[g.value].(acls := Unlike(acls, Acl(direction, priority, text, Allow, "")))))
    case SetRevision(ref, revision) =>
      var g := Resolve(s, ref);
      if g == None || g.value !in s.groups then None
      else Some(WithGroup(s, g.value, s.groups[g.value].(revision := revision)))
  }

  function Commit(s: State, queue: seq<Command>): Option<State>
    decreases |queue|
  {
    if queue == [] then Some(s)
    else
      var next := Apply(s, queue[0]);
      if next == None then None else Commit(next.value, queue[1..])
  }

  lemma {:induction false} CommitAppend(s: State, a: seq<Command>, b: seq<Command>)
    ensures Commit(s, a + b) == (var mid := Commit(s, a); if mid == None then None else Commit(mid.value, b))
    decreases |a|
  {
    if a == [] {
      assert a + b == b;
    } else {
      assert (a + b)[1..] == a[1..] + b;
      var next := Apply(s, a[0]);
      if next.Some? {
        CommitAppend(next.value, a[1..], b);
      }
    }
  }

  lemma CommitOne(s: State, queue: seq<Command>, c: Command)
    ensures Commit(s, queue + [c]) == (var mid := Commit(s, queue); if mid == None then None else Apply(mid.value, c))
  {
    CommitAppend(s, queue, [c]);
    var mid := Commit(s, queue);
    if mid.Some? && Apply(mid.value, c).Some? {
      assert [c][1..] == [];
      assert Commit(Apply(mid.value, c).value, [c][1..]) == Apply(mid.value, c);
    }
  }

  // ---------------------------------------------------------------------------------------------
  // Many groups at once
  // ---------------------------------------------------------------------------------------------

  function Resolvable(s: State, refs: set<string>): bool {
    forall r :: r in refs ==> Resolve(s, r).Some?
  }

  function Resolved(s: State, refs: set<string>): set<Name> {
    set r | r in refs && Resolve(s, r).Some? :: Resolve(s, r).value
  }

  function Joined(s: State, gs: set<Name>, p: PortId): State {
    s.(groups := map g | g in s.groups ::
         if g in gs then s.groups[g].(ports := s.groups[g].ports + {p}) else s.groups[g])
  }

  function Left(s: State, gs: set<Name>, p: PortId): State {
    s.(groups := map g | g in s.groups ::
         if g in gs then s.groups[g].(ports := s.groups[g].ports - {p}) else s.groups[g])
  }
}
