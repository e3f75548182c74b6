/** Security groups on ports: provider/neutron/neutron_api.py (add_port, update_port, delete_port and
    the security group calls) over provider/ovndb/ovn_north.py and
    provider/ovndb/ovn_security_groups.py.

    Three facts about a port are written by separate code: the groups recorded as a string on it, its
    membership of port groups, and its `port_security` column together with the DropAll group.  Each
    call is described here as one step on the tables; SecurityGroupApi does it command by command. */
module SecurityGroups {
  import opened Text
  import opened Matches
  import opened Acls
  import opened PortGroups

  const DEFAULT: Name := "Default"
  const DROP_ALL: Name := "DropAll"

  const ALLOW_PRIORITY := 1001
  const DROP_PRIORITY := 1000

  // ---------------------------------------------------------------------------------------------
  // The ACLs the provider makes
  // ---------------------------------------------------------------------------------------------

  function DropAtoms(d: Direction): seq<Atom> {
    [AtPort(d, DROP_ALL), AnyIp]
  }

  /** `create_drop_all_traffic_acls`, one direction */
  function DropAcl(d: Direction): Acl {
    Acl(d, DROP_PRIORITY, MatchText(DropAtoms(d)), Drop, DROP_ALL)
  }

  /** `create_acl`; `None` is ProtocolNotSupported. */
  function RuleAcl(rule: Rule, g: Name): Option<Acl> {
    if CompiledMatch(rule, g) == None then None
    else Some(Acl(rule.direction, ALLOW_PRIORITY, CompiledMatch(rule, g).value, Allow, g))
  }

  function EgressRule(e: EtherType): Rule {
    Rule(Egress, e, None, None, None, None, None)
  }

  function IngressFrom(e: EtherType, g: Name): Rule {
    Rule(Ingress, e, None, None, None, None, Some(g))
  }

  function OpenAcl(rule: Rule, g: Name): Acl
    requires rule.protocol == None
  {
    RuleAcl(rule, g).value
  }

  function DropAcls(): seq<Acl> {
    [DropAcl(Ingress), DropAcl(Egress)]
  }

  /** `create_default_allow_egress_acls` */
  function EgressAcls(g: Name): seq<Acl> {
    [OpenAcl(EgressRule(IPv4), g), OpenAcl(EgressRule(IPv6), g)]
  }

  /** `create_default_sec_group_acls` */
  function DefaultAcls(): seq<Acl> {
    EgressAcls(DEFAULT) + [OpenAcl(IngressFrom(IPv4, DEFAULT), DEFAULT), OpenAcl(IngressFrom(IPv6, DEFAULT), DEFAULT)]
  }

  ghost predicate DistinctRules(acls: seq<Acl>) {
    forall i, j :: 0 <= i < j < |acls| ==> !SameRule(acls[i], acls[j])
  }

  /** ACL rows with the row ids they get. */
  function Table(ids: seq<AclId>, acls: seq<Acl>): map<AclId, Acl>
    requires |ids| == |acls|
  {
    if ids == [] then map[]
    else Table(ids[..|ids| - 1], acls[..|acls| - 1])[ids[|ids| - 1] := acls[|acls| - 1]]
  }

  // ---------------------------------------------------------------------------------------------
  // What each call does to the tables
  // ---------------------------------------------------------------------------------------------

  /** Row ids the database would hand out for the two reserved groups and their ACLs. */
  datatype Fresh = Fresh(dropUuid: Uuid, dropIds: seq<AclId>, defaultUuid: Uuid, defaultIds: seq<AclId>)

  ghost predicate NewUuid(s: State, u: Uuid) {
    IsWord(u) && u !in s.names && u !in s.groups && u != DEFAULT && u != DROP_ALL
  }

  ghost predicate NewIds(s: State, ids: seq<AclId>) {
    && (forall i, j :: 0 <= i < j < |ids| ==> ids[i] != ids[j])
    && (forall i, g :: 0 <= i < |ids| && g in s.groups ==> ids[i] !in s.groups[g].acls)
  }

  ghost predicate IsFresh(s: State, f: Fresh) {
    && NewUuid(s, f.dropUuid) && NewUuid(s, f.defaultUuid) && f.dropUuid != f.defaultUuid
    && |f.dropIds| == 2 && |f.defaultIds| == 4 && NewIds(s, f.dropIds + f.defaultIds)
  }

  /** The tables, with uuids that are never the name of a reserved group. */
  ghost predicate Valid(s: State) {
    Indexed(s) && DEFAULT !in s.names && DROP_ALL !in s.names
  }

  /** `assure_group_exists` */
  function Provisioned(s: State, g: Name, u: Uuid, ids: seq<AclId>, acls: seq<Acl>): State
    requires |ids| == |acls|
  {
    if g in s.groups then s
    else State(s.ports, s.groups[g := Group(u, {}, Table(ids, acls), 1)], s.names[u := g])
  }

  function Secured(s: State, f: Fresh): State
    requires |f.dropIds| == 2 && |f.defaultIds| == 4
  {
    Provisioned(Provisioned(s, DROP_ALL, f.dropUuid, f.dropIds, DropAcls()),
                DEFAULT, f.defaultUuid, f.defaultIds, DefaultAcls())
  }

  /** `activate_default_security_group` */
  function Activated(s: State, p: PortId, f: Fresh, associate: bool): State
    requires |f.dropIds| == 2 && |f.defaultIds| == 4
  {
    Joined(Secured(s, f), {DROP_ALL} + (if associate then {DEFAULT} else {}), p)
  }

  function WithSecurity(s: State, p: PortId, value: seq<string>): State
    requires p in s.ports
  {
    s.(ports := s.ports[p := s.ports[p].(portSecurity := value)])
  }

  function WithRecord(s: State, p: PortId, record: string): State
    requires p in s.ports
  {
    s.(ports := s.ports[p := s.ports[p].(record := record)])
  }

  function Members(refs: seq<string>): set<string> {
    set r | r in refs
  }

  /** `add_port`.  `addressed` is false when the address checks raise: the port made before them stays. */
  function PortAdded(s: State, p: PortId, mac: string, addressed: bool, networkSecurity: bool,
                     portSecurity: Option<bool>, groups: Option<seq<string>>, f: Fresh): (State, bool)
    requires |f.dropIds| == 2 && |f.defaultIds| == 4
  {
    var created := s.(ports := s.ports[p := PortRow("", [])]);
    var secure := if portSecurity.Some? then portSecurity.value else networkSecurity;
    var refs := if groups.Some? then groups.value else if secure then [DEFAULT] else [];
    var active := if secure then Activated(created, p, f, true) else created;
    if p in s.ports then (s, false)
    else if !addressed then (created, false)
    else if !Resolvable(active, Members(refs)) then (s, false)
    else
      var joined := Joined(active, Resolved(active, Members(refs)), p);
      (joined.(ports := joined.ports[p := PortRow(Join(refs, " "), if secure then [mac] else [])]), true)
  }

  /** What `update_port_security` does to the tables on an update. */
  function SecurityUpdated(s: State, p: PortId, mac: string, portSecurity: Option<bool>, f: Fresh): State
    requires p in s.ports && |f.dropIds| == 2 && |f.defaultIds| == 4
  {
    if portSecurity == Some(true) then WithSecurity(Activated(s, p, f, false), p, [mac])
    else if portSecurity == Some(false) then
      WithSecurity(if s.ports[p].portSecurity != [] && DROP_ALL in s.groups then Left(s, {DROP_ALL}, p) else s, p, [])
    else s
  }

  /** The groups an update asks for: the given ones, or Default when security is turned on. */
  function Requested(portSecurity: Option<bool>, groups: Option<seq<string>>): Option<set<string>> {
    if groups.Some? then Some(Members(groups.value))
    else if portSecurity == Some(true) then Some({DEFAULT})
    else None
  }

  /** The record an update writes: `security_groups or sec_groups_to_install`. */
  function NewRecord(groups: Option<seq<string>>, had: set<string>): string {
    if groups.Some? then Join(groups.value, " ") else if DEFAULT in had then "" else DEFAULT
  }

  /** `update_port` */
  function PortUpdated(s: State, p: PortId, mac: string, addressed: bool,
                       portSecurity: Option<bool>, groups: Option<seq<string>>, f: Fresh): (State, bool)
    requires |f.dropIds| == 2 && |f.defaultIds| == 4
  {
    if p !in s.ports || !addressed then (s, false)
    else
      var secured := SecurityUpdated(s, p, mac, portSecurity, f);
      var wanted := Requested(portSecurity, groups);
      var had := Members(Words(s.ports[p].record));
      if wanted == None then (secured, true)
      else if !Resolvable(secured, (wanted.value - had) + (had - wanted.value)) then (s, false)
      else
        var joined := Joined(secured, Resolved(secured, wanted.value - had), p);
        var left := Left(joined, Resolved(secured, had - wanted.value), p);
        (WithRecord(left, p, NewRecord(groups, had)), true)
  }

  /** `delete_port`; the references to it in port groups are weak. */
  function PortDeleted(s: State, p: PortId): (State, bool) {
    if p !in s.ports then (s, false)
    else (State(s.ports - {p}, map g | g in s.groups :: s.groups[g].(ports := s.groups[g].ports - {p}), s.names), true)
  }

  /** `add_security_group`: reserved names are kept, any other group gets a generated name. */
  function GroupAdded(s: State, name: string, generated: Name, u: Uuid, ids: seq<AclId>): (State, bool)
    requires |ids| == 2
  {
    var g := if name == DEFAULT || name == DROP_ALL then name else generated;
    if g in s.groups then (s, false)
    else (Provisioned(s, g, u, ids, EgressAcls(g)), true)
  }

  /** `remove_security_group` */
  function GroupDeleted(s: State, ref: string): (State, bool) {
    var g := Resolve(s, ref);
    if g == None || g.value !in s.groups || g.value == DEFAULT || s.groups[g.value].ports != {} then (s, false)
    else (State(s.ports, s.groups - {g.value}, s.names - {s.groups[g.value].uuid}), true)
  }

  function Bumped(row: Group): Group {
    row.(revision := row.revision + 1)
  }

  /** `update_security_group` */
  function GroupUpdated(s: State, ref: string): (State, bool) {
    var g := Resolve(s, ref);
    if g == None || g.value !in s.groups || g.value == DEFAULT then (s, false)
    else (WithGroup(s, g.value, Bumped(s.groups[g.value])), true)
  }

  /** The rule with the remote group it names looked up, or none when there is no such group. */
  function WithRemote(s: State, rule: Rule): Option<Rule> {
    if !Given(rule.remoteGroup) then Some(rule.(remoteGroup := None))
    else
      var remote := Resolve(s, rule.remoteGroup.value);
      if remote == None then None else Some(rule.(remoteGroup := remote))
  }

  /** `create_security_group_rule` */
  function RuleAdded(s: State, ref: string, rule: Rule, id: AclId): (State, bool) {
    var g := Resolve(s, ref);
    var resolved := WithRemote(s, rule);
    if g == None || g.value !in s.groups || resolved == None || RuleAcl(resolved.value, g.value) == None then (s, false)
    else
      var acl := RuleAcl(resolved.value, g.value).value;
      var row := s.groups[g.value];
      if HasRule(row, acl) then (s, false)
      else (WithGroup(s, g.value, Bumped(row.(acls := row.acls[id := acl]))), true)
  }

  /** The group whose ACL has the given row id. */
  predicate OwnsAcl(s: State, g: Name, id: AclId) {
    g in s.groups && id in s.groups[g].acls
  }

  /** `remove_security_group_rule`: the ACL is found by id, and deleted by what it says. */
  function RuleRemoved(s: State, g: Name, id: AclId): (State, bool)
    requires OwnsAcl(s, g, id)
  {
    var acl := s.groups[g].acls[id];
    var owner := Resolve(s, acl.owner);
    if owner == None || owner.value !in s.groups then (s, false)
    else
      var row := s.groups[owner.value];
      (WithGroup(s, owner.value, Bumped(row.(acls := Unlike(row.acls, acl)))), true)
  }
}
