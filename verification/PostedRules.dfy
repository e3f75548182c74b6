/** A security group rule from the call that posts it to the packets its ACL selects, in the caller's own
    terms: the references given, and the direction, ethertype, prefix, protocol and ports posted. */
module PostedRules {
  import opened Text
  import opened Matches
  import opened Acls
  import opened AclMeaning
  import opened AclProtocols
  import opened PortGroups
  import opened SecurityGroups
  import opened GroupCalls
  import opened SecurityInvariants
  import opened SecurityRules
  import opened Verdicts

  // ---------------------------------------------------------------------------------------------
  // What a posted rule asks of a packet
  // ---------------------------------------------------------------------------------------------

  function Remote(d: Direction, p: Packet): Address {
    if d == Ingress then p.src else p.dst
  }

  /** The packet belongs to a port of the group, and is what the rule describes; its remote address is one
      of the remote group, when the rule has one. */
  ghost predicate Asked(s: State, rule: Rule, g: Name, net: Network, p: Packet) {
    && HeadAdmits(rule.(remoteGroup := None), g, net, p)
    && (Given(rule.protocol) ==> ProtocolAsked(rule, p))
    && (Given(rule.remoteGroup) ==>
          exists h :: Finds(s, rule.remoteGroup.value, h) && net.InAddressSet(h, p.version, Remote(rule.direction, p)))
  }

  /** The ACL of the rule, as it is stored: who it is for, and the packets it selects. */
  ghost predicate Enforces(s: State, acl: Acl, rule: Rule, g: Name) {
    && acl.direction == rule.direction && acl.action == Allow && acl.priority == 1001
    && forall net, p :: Selects(acl.text, net, p) <==> Asked(s, rule, g, net, p)
  }

  /** A rule with a known ethertype, a protocol that is recognised, and a prefix that cannot break the
      match string apart. */
  ghost predicate Postable(rule: Rule) {
    Plain(rule) && CleanRule(rule.(remoteGroup := None), "")
  }

  ghost predicate RemoteFound(s: State, rule: Rule) {
    Given(rule.remoteGroup) ==> exists h :: Finds(s, rule.remoteGroup.value, h)
  }

  lemma NamesAreWords(s: State, g: Name)
    requires Valid(s) && g in s.groups
    ensures IsWord(g) && g != ""
  {
  }

  lemma RemoteIs(s: State, rule: Rule, resolved: Rule)
    requires Valid(s) && WithRemote(s, rule) == Some(resolved)
    ensures resolved == rule.(remoteGroup := resolved.remoteGroup)
    ensures !Given(rule.remoteGroup) ==> resolved.remoteGroup == None
    ensures Given(rule.remoteGroup) ==> Given(resolved.remoteGroup)
    ensures Given(rule.remoteGroup) ==>
              forall h :: Finds(s, rule.remoteGroup.value, h) <==> h == resolved.remoteGroup.value
  {
    if Given(rule.remoteGroup) {
      ResolvesWhatItFinds(s, rule.remoteGroup.value);
      hide Valid, Resolve;
      assert Finds(s, rule.remoteGroup.value, resolved.remoteGroup.value);
      NamesAreWords(s, resolved.remoteGroup.value);
    }
  }

  lemma RemoteMeans(s: State, rule: Rule, g: Name, resolved: Rule, net: Network, p: Packet)
    requires Valid(s) && rule.etherType != OtherType && WithRemote(s, rule) == Some(resolved)
    ensures Admits(resolved, g, net, p) <==> Asked(s, rule, g, net, p)
  {
    RemoteIs(s, rule, resolved);
    AdmitsIsAsked(resolved, g, net, p);
    hide Admits, Assigned, Valid, WithRemote, Finds;
    assert Given(rule.protocol) ==> (ProtocolAsked(resolved, p) <==> ProtocolAsked(rule, p));
    if Given(rule.remoteGroup) {
      var h := resolved.remoteGroup.value;
      assert Finds(s, rule.remoteGroup.value, h);
      assert HeadAdmits(resolved, g, net, p) <==>
             HeadAdmits(rule.(remoteGroup := None), g, net, p) &&
             net.InAddressSet(h, p.version, Remote(rule.direction, p));
    }
  }

  /** The ACL compiled for a rule whose remote group was looked up does what was posted. */
  lemma CompiledEnforces(s: State, rule: Rule, g: Name, resolved: Rule, acl: Acl)
    requires Valid(s) && WellKept(s) && g in s.groups && Postable(rule)
    requires WithRemote(s, rule) == Some(resolved) && RuleAcl(resolved, g) == Some(acl)
    ensures Enforces(s, acl, rule, g)
  {
    RemoteIsClean(s, rule, g);
    assert Recognised(resolved);
    hide WithRemote, RuleAcl, Recognised, Selects, Asked, Admits, Valid, WellKept;
    forall net, p
      ensures Selects(acl.text, net, p) <==> Asked(s, rule, g, net, p)
    {
      RuleAclIs(resolved, g, acl, net, p);
      RemoteMeans(s, rule, g, resolved, net, p);
    }
  }

  // ---------------------------------------------------------------------------------------------
  // Posting a rule
  // ---------------------------------------------------------------------------------------------

  /** Only the group changes, by the one ACL and its revision. */
  ghost predicate OnlyAclAdded(s: State, t: State, g: Name, id: AclId)
    requires g in s.groups && g in t.groups && id in t.groups[g].acls
  {
    && t.ports == s.ports && t.names == s.names && t.groups == s.groups[g := t.groups[g]]
    && t.groups[g] == s.groups[g].(acls := s.groups[g].acls[id := t.groups[g].acls[id]],
                                   revision := s.groups[g].revision + 1)
  }

  /** An ACL of the group does already what the rule asks for. */
  ghost predicate Enforced(s: State, rule: Rule, g: Name) {
    g in s.groups && exists id :: id in s.groups[g].acls && Enforces(s, s.groups[g].acls[id], rule, g)
  }

  /** A rule that is posted adds to the group its reference finds, under the row id, an ACL that selects the
      packets the rule asks for and no others. */
  lemma PostedRuleIsEnforced(s: State, ref: string, rule: Rule, id: AclId)
    requires Valid(s) && WellKept(s) && Postable(rule) && RuleAdded(s, ref, rule, id).1
    ensures exists g :: Finds(s, ref, g)
    ensures forall g :: Finds(s, ref, g) ==>
              var t := RuleAdded(s, ref, rule, id).0;
              && g in t.groups && id in t.groups[g].acls && OnlyAclAdded(s, t, g, id)
              && Enforces(s, t.groups[g].acls[id], rule, g)
  {
    ResolvesWhatItFinds(s, ref);
    hide Postable, Valid, WellKept, Resolve, WithRemote, RuleAcl, Enforces, HasRule, Finds;
    var g := Resolve(s, ref).value;
    assert Finds(s, ref, g);
    var resolved := WithRemote(s, rule).value;
    CompiledEnforces(s, rule, g, resolved, RuleAcl(resolved, g).value);
  }

  /** The ACL that is there already has the direction and the match of the rule's own. */
  lemma DuplicateEnforces(s: State, rule: Rule, g: Name, resolved: Rule, acl: Acl)
    requires Valid(s) && WellKept(s) && g in s.groups && Postable(rule)
    requires WithRemote(s, rule) == Some(resolved) && RuleAcl(resolved, g) == Some(acl) && HasRule(s.groups[g], acl)
    ensures Enforced(s, rule, g)
  {
    hide Valid, WellKept, Postable, WithRemote, Asked, Selects;
    CompiledEnforces(s, rule, g, resolved, acl);
    hide RuleAcl;
    var id :| id in s.groups[g].acls && SameRule(s.groups[g].acls[id], acl);
    AllowedByPriority(s, g, id);
    assert Enforces(s, s.groups[g].acls[id], rule, g);
  }

  lemma DropPriority(d: Direction)
    ensures DropAcl(d).priority == 1000 && DropAcl(d).action == Drop
  {
  }

  lemma RulesAllow(rule: Rule, g: Name)
    ensures RuleAcl(rule, g).Some? ==> RuleAcl(rule, g).value.action == Allow
  {
    hide CompiledMatch;
  }

  lemma AllowedByPriority(s: State, g: Name, id: AclId)
    requires WellKept(s) && OwnsAcl(s, g, id)
    ensures s.groups[g].acls[id].priority == 1001 ==> s.groups[g].acls[id].action == Allow
  {
    hide RuleAcl, CleanRule, DropAcl;
    var acl := s.groups[g].acls[id];
    assert Shaped(acl, g);
    if FromRule(acl, g) {
      var rule :| CleanRule(rule, g) && RuleAcl(rule, g) == Some(acl);
      RulesAllow(rule, g);
    } else {
      DropPriority(acl.direction);
    }
  }

  lemma ProtocolDecides(s: State, rule: Rule, g: Name, resolved: Rule)
    requires WithRemote(s, rule) == Some(resolved)
    ensures RuleAcl(resolved, g) == None <==> Given(rule.protocol) && Assigned(rule.protocol.value) == None
  {
    RefusedIffUnassigned(resolved, g);
    hide Assigned, CompiledAtoms, MatchText, Resolve;
  }

  /** It is refused, and nothing changes, when its reference finds no group, its remote group is not found
      or its protocol is not one; otherwise only because an ACL of the group enforces the rule already. */
  lemma PostedRuleIsRefused(s: State, ref: string, rule: Rule, id: AclId)
    requires Valid(s) && WellKept(s) && Postable(rule)
    ensures var (t, ok) := RuleAdded(s, ref, rule, id);
            var sayable := && (exists g :: Finds(s, ref, g)) && RemoteFound(s, rule)
                           && (Given(rule.protocol) ==> Assigned(rule.protocol.value).Some?);
            && (!sayable ==> !ok) && (!ok ==> t == s)
            && (sayable && !ok ==> exists g :: Finds(s, ref, g) && Enforced(s, rule, g))
  {
    ResolvesWhatItFinds(s, ref);
    if Given(rule.remoteGroup) {
      ResolvesWhatItFinds(s, rule.remoteGroup.value);
    }
    assert WithRemote(s, rule).Some? <==> RemoteFound(s, rule);
    hide Postable, Valid, WellKept, Resolve, WithRemote, RuleAcl, Enforced, HasRule, Finds, RemoteFound, Assigned;
    if Resolve(s, ref).Some? && WithRemote(s, rule).Some? {
      var g, resolved := Resolve(s, ref).value, WithRemote(s, rule).value;
      assert Finds(s, ref, g);
      ProtocolDecides(s, rule, g, resolved);
      if RuleAcl(resolved, g).Some? && g in s.groups && HasRule(s.groups[g], RuleAcl(resolved, g).value) {
        DuplicateEnforces(s, rule, g, resolved, RuleAcl(resolved, g).value);
      }
    }
  }

  // ---------------------------------------------------------------------------------------------
  // What a new group lets through
  // ---------------------------------------------------------------------------------------------

  /** The rule of one ethertype that lets everything out. */
  lemma EgressRuleMeans(e: EtherType, g: Name, net: Network, p: Packet)
    requires e != OtherType && CleanFragment(g)
    ensures var acl := OpenAcl(EgressRule(e), g);
            && acl.direction == Egress && acl.action == Allow && acl.priority == 1001
            && (Selects(acl.text, net, p) <==> p.version == (if e == IPv4 then V4 else V6) && net.Member(g, p.inport))
  {
    var rule := EgressRule(e);
    assert CleanRule(rule, g) && Recognised(rule) && rule.protocol == None;
    OpenRuleMeans(rule, g, net, p);
    hide CleanRule, Selects, Admits, HeadAdmits, CompiledAtoms, MatchText;
    RuleAclIs(rule, g, OpenAcl(rule, g), net, p);
    AdmitsIsAsked(rule, g, net, p);
    EgressAsked(rule, g, net, p);
  }

  lemma EgressAsked(rule: Rule, g: Name, net: Network, p: Packet)
    requires rule == EgressRule(rule.etherType) && rule.etherType != OtherType
    ensures HeadAdmits(rule, g, net, p) <==>
            p.version == (if rule.etherType == IPv4 then V4 else V6) && net.Member(g, p.inport)
  {
  }

  /** A group that is added has no ports, and ACLs of its own that let out every IP packet of its ports and
      say nothing of packets that come in.  Only the two reserved names are kept. */
  lemma NewGroupLetsOut(s: State, name: string, generated: Name, u: Uuid, ids: seq<AclId>, net: Network, p: Packet)
    requires Valid(s) && WellKept(s) && NewUuid(s, u) && |ids| == 2 && NewIds(s, ids) && CleanFragment(generated)
    requires GroupAdded(s, name, generated, u, ids).1
    ensures var (t, g) := (GroupAdded(s, name, generated, u, ids).0,
                           if name == "Default" || name == "DropAll" then name else generated);
            && g !in s.groups && t.ports == s.ports && t.groups.Keys == s.groups.Keys + {g}
            && (forall h :: h in s.groups ==> t.groups[h] == s.groups[h])
            && Finds(t, u, g) && t.groups[g].ports == {} && t.groups[g].revision == 1
            && (forall id :: id in t.groups[g].acls ==> id in ids && t.groups[g].acls[id].direction == Egress
                                                        && t.groups[g].acls[id].action == Allow)
            && ((exists id :: id in t.groups[g].acls && Selects(t.groups[g].acls[id].text, net, p)) <==>
                IsIp(p) && net.Member(g, p.inport))
  {
    ReservedAreWords();
    hide Valid, WellKept, Selects, OpenAcl, NewUuid, CleanFragment;
    var g := if name == "Default" || name == "DropAll" then name else generated;
    EgressRuleMeans(IPv4, g, net, p);
    EgressRuleMeans(IPv6, g, net, p);
    var acls := EgressAcls(g);
    TableHolds(ids, acls);
    hide Table;
    var row := GroupAdded(s, name, generated, u, ids).0.groups[g];
    assert row.acls == Table(ids, acls) && acls[0] == row.acls[ids[0]] && acls[1] == row.acls[ids[1]];
    assert forall id :: id in ids <==> id == ids[0] || id == ids[1];
  }
}
