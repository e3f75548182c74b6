# oVirt OVN provider: a verified model

The provider answers the OpenStack Networking API v2.0 and keeps its data in an OVN northbound
database.  This project models, in Dafny, what its calls do to that database and proves what they keep.

Each part has two layers.  Specification functions say what a call does to the tables as one step; a
class does the same write by write, in the order the Python code does, and its methods are proved equal
to the steps.  Lemmas then prove invariants over every run of the calls.

- **REST dispatch** (`SelectingHandler.dfy`, `Dispatch.dfy`, `WrittenRoutes.dfy`): the tree of nested
  dictionaries that `rest` grows, against a narrowing search over the plain set of registered routes, and
  routes as they are written.
- **Rule compiler** (`Matches.dfy`, `Acls.dfy`, `AclMeaning.dfy`, `AclProtocols.dfy`): a security group rule
  compiled to a conjunction of match atoms and printed as a string.  The meaning of a match is that of
  ovn-nb(5) and the expression language of ovn-sb(5), with ICMP types and codes of RFC 792 and section 2.1
  of RFC 4443, and the protocol numbers of the registry of assigned internet protocol numbers.
- **Security groups on ports** (`PortGroups.dfy`, `SecurityGroups.dfy`, `SecurityGroupApi.dfy`,
  `SecurityInvariants.dfy`, `SecurityRuns.dfy`, `SecurityTracks.dfy`, `SecurityRules.dfy`,
  `ReservedGroups.dfy`, `Verdicts.dfy`, `PostedGroups.dfy`, `GroupCalls.dfy`, `PostedRules.dfy`): records,
  membership, DropAll and `port_security`, the identity of rules, the verdict of the ACL table on a packet,
  and what a posted rule comes to.
- **Routers** (`RouterTables.dfy`, `Routers.dfy`, `RouterApi.dfy`, `RouterPairing.dfy`, `RouterRuns.dfy`,
  `RouterSteps.dfy`, `RouterCalls.dfy`, `Reservations.dfy`, `RouterRoundTrips.dfy`, `RouterExamples.dfy`):
  router ports paired with switch ports by name, gateway routers of subnets, the addresses of ports, and
  those reserved for external gateways.
- **Static routes** (`Routes.dfy`), **subnets** (`Subnets.dfy`), **MTU** over the router runs (`Mtu.dfy`,
  `MtuCalls.dfy`, `MtuExamples.dfy`), **conditional writes** (`DbSet.dfy`), and the string operations of all
  (`Text.dfy`).

ovsdbapp commands are modelled by contract: `db_set` merges map columns, `pg_acl_add` and `lr_route_add`
fail on a duplicate, members of a port group are weak references, ACLs go with their group, and a queue of
commands takes effect as a whole or not at all.  A queue is committed even when the call that filled it
raises (`provider/ovn_connection.py:94-102`), and the steps say what is left then.

Generated uuids, names and MACs, the addresses OVN assigns, and the order in which rows are listed are
parameters of the calls.

Where a law the code is meant to keep does not hold for every input, the model keeps the code as it is
and the lemmas give the exact condition:

- A protocol number with leading zeros, such as `006`, is taken but not recognised as TCP
  (`AclMeaning.CompilerCorrectIffRecognised`): a rule for port 80 then lets port 22 through
  (`AclMeaning.LeadingZerosDropPorts`).
- A rule of an unknown ethertype is compiled without an IP version, and lets through packets that are not
  even IP (`AclProtocols.UnknownEthertypeMeans`).
- A group that is recorded under its name and asked for by its uuid is lost from the port while the record
  lists it (`SecurityInvariants.UpdateConsistentIffNothingLost`, `SecurityInvariants.TwoIdentifiersLose`).
- A port in DropAll has packets let through that no rule describes when DropAll has lost its drop ACL
  (`Verdicts.ReachableVerdict`).  It has it all along a run exactly when no caller posts the group while it
  is missing, or deletes the ACL as a rule (`ReservedGroups.RunKeepsIff`).  Two such runs are in
  `PostedGroups`: a posted DropAll that drops nothing, and a posted Default whose ports cannot be reached.
- A fitting route is missed behind a literal that leads nowhere (`Dispatch.LiteralHidesParameter`); for each
  request `Dispatch.RouteIsFoundIff` says when.
- Deleting an interface by subnet, or by the row id of its port, forgets to release an external gateway on
  it (`Reservations.StepConservedIffSpared`, `RouterExamples.ReservationForgotten`).
- Deleting a router just made with an external gateway also makes a subnet forget its gateway router, when
  the gateway was given that subnet's own gateway address (`RouterRoundTrips.DeleteUndoesAddIff`,
  `RouterExamples.DeletionForgets`).
- A list of routes with two next hops for one destination is not what the router ends up with
  (`Routes.ReconciledIffOneHop`, `Routes.TwoHopsFail`).
- A gateway is not read back when an IPv6 prefix is posted as version 4, which validation therefore
  refuses (`Subnets.GatewayReadsBackIff`, `Subnets.MismatchLosesGateway`).
- An IPv6 subnet made stateless is never announced as such to OVN, and the two spellings of the stateful
  mode, which are stored alike, are not validated alike (`Subnets.Ipv6OptionsAre`, `Subnets.SpellingDecides`).
- An update of an MTU looks the interface of an IPv6 subnet up by address, and may find another port that
  has the address, such as an external gateway of the same router: the interface keeps the old MTU
  (`MtuExamples.SharedAddressMisses`).  `Mtu.StepAlwaysCoheresIff` and `Mtu.RunAlwaysCoheresIff` give the
  condition on the tables before the call; an interface that alone has its address is always found
  (`Mtu.AloneIsReached`).
- An MTU posted again as the string a subnet carries repairs no interface that is out of step
  (`MtuCalls.UpdateWritesIff`).
- Turning security on without a list of groups, on a port that records Default, leaves nothing recorded
  (`GroupCalls.SecuringJoinsDefault`).
- A caller who names DropAll can put a port into it whose `port_security` stays empty
  (`SecurityTracks.NamingDropAllUntracks`): which calls keep the two together is
  `SecurityTracks.StepMarksIff`, and over whole runs `SecurityTracks.RunMarksIff`.

## Model

| member | source | states |
|---|---|---|
| SelectingHandler.Responses.Rest | provider/handlers/selecting_handler.py:113-161 | A registration succeeds, or fails as a duplicate parameter, a second parameter name or a duplicate method, exactly when the set of routes and stubs registered so far says so; it adds its route, or the stub of the path it had made by then |
| SelectingHandler.Responses.ValidatePathParameters | provider/handlers/selecting_handler.py:146-161 | The objection raised on the dictionaries is the one the plain set of entries calls for at that depth |
| SelectingHandler.Responses.GetResponseHandler | provider/handlers/selecting_handler.py:177-200 | The greedy walk answers what a narrowing search over the plain set answers (literal, then parameter, then wildcard, never back): same handler, same parameters, same error |
| Dispatch.DeclareAll | provider/handlers/selecting_handler.py:113-143 | The decorators of a module run without failure exactly when each route is accepted after those before it, and lookups then search exactly the routes declared |
| WrittenRoutes.PathReadsBackIff | provider/handlers/selecting_handler.py:164-166 | A route written with its parameters in braces is read as it was meant, if and only if every parameter has a name and no literal is a name in braces |
| WrittenRoutes.RouteTextReadsBack | provider/handlers/selecting_handler.py:113-127 | So is a route written as one string and split at its slashes |
| WrittenRoutes.RegisteredNamesDistinct | provider/handlers/selecting_handler.py:146-161 | A route that is registered names each parameter once; on an empty tree that is all it takes |
| WrittenRoutes.WrittenRouteAnswers | provider/handlers/selecting_handler.py:177-200 | A written route with nothing beside its parameters and stars answers every request that has its literals, with each written name bound to the text at its place and nothing else bound |
| WrittenRoutes.RegisterAndRequest | provider/handlers/selecting_handler.py:113-200 | Registering the written parts on an empty tree and requesting them with any texts for the parameters finds the handler with each name bound to its text; the registration fails exactly on a name written twice |
| Dispatch.FoundIsRegistered | provider/handlers/selecting_handler.py:177-200 | Whatever is found is a registered route of that method which fits the request, with the parameters bound to the parts they stand at |
| Dispatch.UnshadowedRouteIsFound | provider/handlers/selecting_handler.py:177-200 | A registered route with nothing beside its parameters and wildcards answers every request that fits it |
| Dispatch.SearchIsWalk | provider/handlers/selecting_handler.py:177-200 | A lookup follows one path, segment by segment, and answers what is registered at its end: the handler with the parts bound along the path, a wrong method, or nothing |
| Dispatch.RouteIsFoundIff | provider/handlers/selecting_handler.py:177-200 | A registered route is what a request reaches, and then it answers it, if and only if at every depth its segment is the part itself, or no entry has that literal there and the segment is the parameter, or the wildcard where there is no parameter |
| Dispatch.LiteralHidesParameter | provider/handlers/selecting_handler.py:177-200 | A fitting route can be missed behind a literal that leads nowhere: two routes and a request that show it |
| Dispatch.RepresentedIsCoherent | provider/handlers/selecting_handler.py:113-161 | A tree never holds two parameter names at one place, nor two handlers for one path and method |
| Dispatch.RegisteredIffAccepted | provider/handlers/selecting_handler.py:113-161 | A registration succeeds if and only if no depth of its path objects and its method is free |
| Dispatch.Commute | provider/handlers/selecting_handler.py:113-161 | Two registrations that succeed in one order succeed in the other |
| Dispatch.OrderDoesNotMatter | provider/handlers/selecting_handler.py:113-161 | Routes that register in one order register in every order, with the same entries and so the same lookups |
| Matches.MatchReadsBack | provider/ovndb/acls.py:211-212 | Splitting a printed match at its separator and parsing the pieces gives back the atoms it was printed from |
| Matches.PrintingIsInjective | provider/ovndb/acls.py:187-212 | Two conjunctions print to the same string if and only if they are the same, when no fragment holds the separator's mark |
| Matches.SeparatorInPrefixConfuses | provider/ovndb/acls.py:67-74 | A prefix that spells the separator prints as two atoms: the restriction on fragments is needed |
| Acls.HandlePorts | provider/ovndb/acls.py:106-126 | The strings built for a port range spell the atoms of that range, with the short form for equal bounds |
| Acls.HandleIcmpProtocol | provider/ovndb/acls.py:129-143 | The strings built for ICMP spell type and code tests of the ethertype's own ICMP, once the missing ones are dropped |
| Acls.ProcessAclProtocolAndPorts | provider/ovndb/acls.py:77-103 | The protocol part fails exactly on a protocol without a number, and else spells the atoms of transport ports, ICMP or the number |
| Acls.CreateAclMatch | provider/ovndb/acls.py:187-208 | The growing list of strings, filtered at the end, spells exactly the atoms of the rule |
| AclMeaning.CompiledMeans | provider/ovndb/acls.py:77-143 | The compiled conjunction holds of a packet if and only if the packet meets the direction, ethertype, prefix, remote group, protocol and ports of the rule, for a recognised protocol |
| AclMeaning.CompilerCorrectIffRecognised | provider/ovndb/acls.py:77-143 | Compilation preserves the meaning of a rule on every network and packet if and only if its protocol number is spelled so that it is recognised, or nothing depends on that |
| AclMeaning.LeadingZerosDropPorts | provider/ovndb/acls.py:77-103 | A rule for protocol 006 and port 80 compiles to a conjunction that lets a TCP packet to port 22 through |
| AclProtocols.RefusedIffUnassigned | provider/ovndb/acls.py:77-86 | A rule is rejected exactly when its protocol is none of the names with an assigned number, written out with their numbers, and no number up to 255 |
| AclProtocols.NameAndNumberAlike | provider/ovndb/acls.py:77-103 | A protocol name and the decimal text of its assigned number compile to the same match, which is always recognised |
| AclProtocols.TransportRuleMeans | provider/ovndb/acls.py:89-126 | A rule for tcp, udp or sctp compiles to the tests of that protocol and lets through packets of number 6, 17 or 132 with a port in its range, and no others |
| AclProtocols.IcmpRuleMeans | provider/ovndb/acls.py:129-143 | A rule for icmp, icmpv6 or ipv6-icmp is about number 1 or 58, as its ethertype says, and its type and code |
| AclProtocols.OtherRuleMeans | provider/neutron/constants.py:99-123 | A rule for any other known name lets through packets of the assigned number, whatever its ports |
| AclProtocols.AdmitsIsAsked | provider/ovndb/acls.py:187-208 | The meaning the compiler is proved against, in terms of the rule alone: IP version, local port, remote address, and the protocol by its assigned number |
| AclProtocols.UnknownEthertypeMeans | provider/ovndb/acls.py:40-64 | Under an unknown ethertype a rule without prefix and remote group lets through whatever its local port sees, even what is not IP, and with either of them nothing |
| AclProtocols.HeadSpelled | provider/ovndb/acls.py:33-74 | The strings for direction, IP version, prefix and remote group, written out |
| AclMeaning.StoredMatchMeans | provider/ovndb/acls.py:187-212 | The string stored in the database, read as OVN reads it, admits exactly the packets the rule describes |
| SecurityGroupApi.SecurityGroupApi.CommitQueue | provider/ovn_connection.py:94-102 | Queued commands take effect together, or none does |
| SecurityGroupApi.SecurityGroupApi.CreateDropAllTrafficAcls | provider/ovndb/acls.py:273-307 | The ACLs written out for DropAll are, direction by direction, those whose match spells membership and IP |
| SecurityGroupApi.SecurityGroupApi.AssureGroupExists | provider/ovndb/ovn_north.py:461-474 | A missing group is queued with its ACLs, one command each and none of them a duplicate; a group that is there is left alone |
| SecurityGroupApi.SecurityGroupApi.ActivateDefaultSecurityGroup | provider/ovndb/ovn_north.py:445-486 | After the queue DropAll and Default exist, the port is in DropAll, and in Default when asked |
| SecurityGroupApi.SecurityGroupApi.InstallSecurityGroups | provider/ovndb/ovn_north.py:508-516 | The commands for a set of groups put the port into all of them, or fail together when one is not found, in whatever order the set is walked |
| SecurityGroupApi.SecurityGroupApi.RemoveSecurityGroupsFromPort | provider/ovndb/ovn_north.py:518-526 | The same for taking the port out |
| SecurityGroupApi.SecurityGroupApi.DeactivateDropAll | provider/ovndb/ovn_north.py:528-539 | The port leaves DropAll, looked up by name and named by uuid; nothing happens when there is no DropAll |
| SecurityGroupApi.SecurityGroupApi.AddPort | provider/neutron/neutron_api.py:397-450 | The commands of `add_port`, committed at its end or when its addresses raise, do the whole step: port, activation, security column, groups, record |
| SecurityGroupApi.SecurityGroupApi.UpdatePortSecurity | provider/neutron/neutron_api.py:596-615 | For True, False and absent: what is queued changes DropAll and `port_security` together |
| SecurityGroupApi.SecurityGroupApi.UpdatePort | provider/neutron/neutron_api.py:457-499 | The commands of `update_port` do the whole step: security, groups joined, groups left, record |
| SecurityGroupApi.SecurityGroupApi.DeletePort | provider/neutron/neutron_api.py:738-742 | The port goes from its table and from every group |
| SecurityGroupApi.SecurityGroupApi.AddSecurityGroup | provider/ovndb/ovn_north.py:298-307 | A group is made with its egress ACLs under its reserved or generated name, or nothing is when the name is taken |
| SecurityGroupApi.SecurityGroupApi.DeleteSecurityGroup | provider/ovndb/ovn_north.py:309-318 | Refused for Default and for a group in use; else the group and its ACLs go |
| SecurityGroupApi.SecurityGroupApi.UpdateSecurityGroup | provider/ovndb/ovn_security_groups.py:88-116 | Refused for Default and for an unknown group; else the revision grows by one |
| SecurityGroupApi.SecurityGroupApi.CreateSecurityGroupRule | provider/ovndb/ovn_north.py:362-413 | The rule is compiled for the group and its remote group's name, added unless a rule says the same, and only then is the revision written |
| SecurityGroupApi.SecurityGroupApi.RemoveSecurityGroupRule | provider/ovndb/ovn_north.py:415-437 | The ACL found by row id is deleted by direction, priority and match, and the revision of its group written |
| PostedRules.PostedRuleIsEnforced | provider/ovndb/ovn_north.py:362-413 | A rule that is posted adds to the group its reference finds one ACL, under the row id, that selects a packet if and only if the packet meets the posted direction, ethertype, prefix, protocol and ports at a member of the group, its remote address in the address set of the group the remote reference finds |
| PostedRules.PostedRuleIsRefused | provider/ovndb/ovn_north.py:362-413 | It is refused, and changes nothing, when a reference finds no group or the protocol is unknown, and otherwise only when an ACL of the group enforces the rule already |
| PostedRules.NewGroupLetsOut | provider/ovndb/ovn_north.py:298-307 | A group that is added, under its reserved or its generated name, has ACLs that let out every IP packet of its ports and say nothing of packets coming in |
| GroupCalls.DeletedIff | provider/ovndb/ovn_north.py:309-318 | A group is deleted exactly when a name or uuid finds it, it is not Default and no port is in it; nothing refers to it then and the rest stays |
| GroupCalls.UpdatedIff | provider/ovndb/ovn_security_groups.py:88-116 | A group is updated exactly when it is found and is not Default; only its revision grows |
| GroupCalls.DeletedPortIs | provider/neutron/neutron_api.py:738-742 | A deleted port is in no group; other memberships and all ACLs stay |
| GroupCalls.DefaultStays | provider/neutron/validation.py:285-287 | Once made, Default is there along every run |
| GroupCalls.AddedPortIff | provider/neutron/neutron_api.py:397-455 | A port is added exactly when it is new, its addresses can be had and every group asked for is found or is one made for a secured port; else nothing is left, or the bare port when it was the addresses |
| GroupCalls.SecuringJoinsDefault | provider/neutron/neutron_api.py:695-733 | Security turned on without a list: the port is put into Default under its name, and Default is recorded, or nothing when it was recorded already |
| SecurityInvariants.AddPortConsistent | provider/neutron/neutron_api.py:397-450 | A port added, or half added, leaves every recorded group existing with its port in it |
| SecurityInvariants.AddedPortIs | provider/neutron/neutron_api.py:397-450 | A port added records exactly the groups asked for, is in them and, when secured, in DropAll and Default as well, has `port_security` set accordingly, and no other port moves |
| SecurityInvariants.UpdatedPortIs | provider/neutron/neutron_api.py:457-499 | A port updated is in the groups it was in and those added, not in those taken away, in DropAll as its security says; its record lists what was asked for, and no other port moves |
| SecurityInvariants.UpdateConsistentIffNothingLost | provider/neutron/neutron_api.py:695-733 | A successful update keeps every recorded group backed by membership if and only if no reference recorded afterwards finds a group the same update takes the port out of |
| SecurityInvariants.OneIdentifierLosesNothing | provider/neutron/neutron_api.py:695-733 | With one identifier for each group, and DropAll not among them, an update loses nothing |
| SecurityInvariants.TwoIdentifiersLose | provider/neutron/neutron_api.py:695-733 | In every state where a port records Default by name, asking for it by uuid takes the port out of it while the record lists it |
| SecurityInvariants.DeltaRefinesReplacement | provider/neutron/neutron_api.py:695-733 | From a port whose membership without DropAll equals its record, an update with an explicit list records the list and touches no other port; the membership becomes the list too if and only if no group but DropAll is on the list and, under another identifier, among those dropped |
| SecurityInvariants.DeleteGroupConsistent | provider/ovndb/ovn_north.py:309-318 | Deleting an unused group leaves no record that names it |
| SecurityRuns.StepConsistentIffCareful | provider/neutron/neutron_api.py:395-499 | Every call keeps all records backed by membership, an update if and only if it is careful |
| SecurityRuns.RunConsistentIff | provider/neutron/neutron_api.py:395-499 | All along a run every group recorded on a port exists and has the port as a member, if and only if every update of the run is careful |
| SecurityRuns.OneIdentifierIsCareful | provider/neutron/neutron_api.py:695-733 | A run in which callers use one identifier for each group, and none for DropAll, is careful |
| SecurityRuns.ReachableConsistent | provider/neutron/neutron_api.py:395-499 | From an empty database, with one identifier for each group, nothing recorded ever dangles |
| SecurityRuns.DeletedGroupIsUnrecorded | provider/neutron/validation.py:290-296 | The check that a group is unused is enough: a group that is deleted is on no record |
| SecurityRuns.UpdateFailsOnlyOnRequest | provider/neutron/neutron_api.py:695-720 | An update of a consistent port fails if and only if a reference the caller gives finds no group; groups recorded earlier never make it fail |
| SecurityTracks.StepMarksIff | provider/neutron/neutron_api.py:596-615 | A call leaves `port_security` set on exactly the members of DropAll if and only if it is no update that takes a port it leaves secured out of DropAll or puts one it leaves unsecured into it and not out again, and adds no unsecured port to it; records and membership may have come apart |
| SecurityTracks.RunMarksIff | provider/neutron/neutron_api.py:744-753 | `port_security` marks the members of DropAll all along a run if and only if every call of it keeps the mark |
| SecurityTracks.ReachableMarks | provider/ovndb/ovn_north.py:445-539 | From an empty database, over such calls, a port has a `port_security` column that is not empty if and only if it is a member of DropAll |
| SecurityTracks.AvoidingIsMarking | provider/neutron/neutron_api.py:695-733 | A run whose callers never name DropAll, by name or uuid, consists of such calls |
| SecurityTracks.ReachableTracks | provider/ovndb/ovn_north.py:445-539 | So from an empty database, where no caller names DropAll, column and membership agree on every port |
| SecurityTracks.NamingDropAllUntracks | provider/neutron/neutron_api.py:695-733 | A caller who does name DropAll puts a port into it whose `port_security` stays empty |
| SecurityRules.StepWellKept | provider/ovndb/ovn_north.py:362-437 | No call makes two ACLs of a group say the same, shares an ACL between groups, or records it as another group's; every ACL is a drop ACL of DropAll or a compiled rule |
| SecurityRules.RunWellKept | provider/ovndb/ovn_security_groups.py:163-197 | The same over whole runs |
| SecurityRules.RemovedIsExact | provider/ovndb/ovn_north.py:415-437 | Deleting by direction, priority and match removes exactly the ACL that was found by its row id, and no other group's |
| SecurityRules.ReachableRemovalIsExact | provider/ovndb/ovn_north.py:415-437 | So it does in every reachable state |
| SecurityRules.RemovalUndoesAddition | provider/ovndb/ovn_north.py:362-437 | Removing a rule that was just added leaves everything but the revision as it was |
| SecurityRules.DuplicateIffSameConjunction | provider/ovndb/ovn_north.py:397-401 | A rule is refused as a duplicate if and only if a rule compiled to the same conjunction, in the same direction, is attached already |
| SecurityRules.ListingAgrees | provider/ovndb/ovn_north.py:332-350 | Over all runs the rules listed for a group by external id are exactly the ACLs attached to it that do not drop |
| SecurityRules.RevisionCounts | provider/ovndb/ovn_security_groups.py:128-135 | Over any run that keeps a group, its revision grows by the number of successful rule additions, rule removals and updates of the group, and by nothing else |
| SecurityRules.CreatedAtOne | provider/ovndb/ovn_security_groups.py:58-83 | A group starts at revision 1, however it comes about |
| ReservedGroups.StepKeepsIff | provider/ovndb/ovn_security_groups.py:180-200 | A call leaves DropAll and Default an ACL they are made with if and only if it neither posts the missing group by name nor deletes that ACL as a rule |
| ReservedGroups.RunKeepsIff | provider/neutron/neutron_api_mappers.py:1227-1229 | They have it all along a run exactly when no call of the run is of that kind |
| Verdicts.DecidersAgree | provider/neutron/constants.py:162-169 | ACLs that decide on a packet together have the same action |
| Verdicts.OutsideDropAllAdmits | provider/ovndb/acls.py:273-307 | A port outside DropAll never has a packet dropped, and no port has one dropped that is not IP |
| Verdicts.InsideDropAllVerdict | provider/ovndb/acls.py:146-184 | At a port in DropAll an IP packet is admitted if and only if an ACL of one of its groups allows it or DropAll has lost the ACL that drops in its direction |
| Verdicts.ReachableVerdict | provider/ovndb/acls.py:146-184 | In every reachable state: a packet is admitted if and only if it is not IP, its port is not in DropAll, DropAll has lost its drop ACL, or an ACL of a group of the port allows it |
| Verdicts.ReachableRuleVerdict | provider/ovndb/acls.py:187-208 | The same with rules in place of ACLs: some rule of the direction, in a group of the port, describes the packet, where the rules added have a known ethertype and a recognised protocol |
| Verdicts.SecuredPortVerdict | provider/neutron/neutron_api.py:596-615 | The same in terms of the `port_security` column of the port, over the runs along which the column marks the members of DropAll |
| Verdicts.DefaultPortsTalk | provider/ovndb/ovn_security_groups.py:184-197 | Two secured ports in Default exchange IP packets, where no call takes a rule of Default away: what one sends from its own address is admitted at both ends |
| Verdicts.DefaultPortsTalkIff | provider/ovndb/ovn_security_groups.py:184-197 | In every reachable state such a packet is admitted at either end if and only if Default still has its rule for it, DropAll has lost its drop ACL, or another rule lets it through |
| PostedGroups.PostedDropAllAdmits | provider/ovndb/ovn_north.py:298-307 | A caller posts a group called DropAll and adds secured ports: they are in DropAll, and every packet is admitted at them in both directions |
| PostedGroups.PostedDefaultDrops | provider/ovndb/ovn_north.py:298-307 | A caller posts a group called Default and adds two secured ports: what one sends to the other is dropped there |
| RouterApi.RouterApi.GetDhcpOfPort | provider/ovndb/ovn_north.py:147-158 | Scanning every subnet's network for a port finds the subnet of the port's own network |
| RouterApi.RouterApi.IsIpAvailable | provider/neutron/ip.py:115-136 | An address is available if and only if no port of the network has it and it is not excluded |
| RouterApi.RouterApi.IsSubnetOnRouter | provider/neutron/neutron_api.py:1472-1479 | The walk over a router's ports finds the subnet, misses it, or raises at a port without one, as the order of the ports decides |
| RouterApi.RouterApi.DeleteNetwork | provider/neutron/neutron_api.py:331-348 | Refused while the network has a port other than its one localnet port; else its subnets and ports go with it |
| RouterApi.RouterApi.AddPort | provider/neutron/neutron_api.py:397-431 | The port is made, with the addresses asked for when they fit and are available, and without any when they raise |
| RouterApi.RouterApi.AddInterfaceBySubnet | provider/neutron/neutron_api.py:1203-1231 | An interface at the gateway address, unless the subnet has a gateway router, is on the router or has no gateway; the subnet then names the router |
| RouterApi.RouterApi.AddInterfaceByPort | provider/neutron/neutron_api.py:1240-1262 | A port with an address becomes the router's, unless it is one already or its network has no subnet |
| RouterApi.RouterApi.DeleteInterfaceByPort | provider/neutron/neutron_api.py:1431-1470 | Both ports of the interface go; the subnet forgets its gateway router when it was the gateway interface, and the router its gateway when the port is named as such |
| RouterApi.RouterApi.DeleteInterfaceBySubnet | provider/neutron/neutron_api.py:1501-1537 | The walk over the router's ports deletes exactly its interfaces on the network of the subnet, whatever their order |
| RouterApi.RouterApi.AddRouter | provider/neutron/neutron_api.py:956-994 | Gateway checked and reserved, router made, gateway placed with its default route, routes added up to the first that is taken |
| RouterApi.RouterApi.UpdateRouter | provider/neutron/neutron_api.py:1039-1102 | Routes changed first, by the dictionaries `diff_routes` makes of the request; then a first gateway is reserved and placed, while a second one raises and leaves the routes changed.  Without a gateway in the request the router ends with exactly the routes requested if and only if there is one next hop for each destination |
| RouterApi.RouterApi.DeleteRouter | provider/neutron/neutron_api.py:1123-1133 | The gateway goes first; the router then goes unless it still has ports |
| RouterRuns.ScanFinds | provider/neutron/neutron_api.py:1472-1479 | A router that has a leg on the network of a subnet is never reported not to be on it |
| RouterRuns.RouterRoutesReconciled | provider/neutron/neutron_api.py:1052-1068 | A router of the run model whose routes are updated ends with exactly those requested if and only if there is one next hop for each destination |
| RouterRuns.RouterRoutesWithGateway | provider/neutron/neutron_api.py:1039-1102 | Given its first gateway by the same call, it has the default route of that gateway besides, and no other |
| RouterRuns.StepKept | provider/neutron/neutron_api.py:1203-1262 | Every call keeps router ports and switch ports paired, at most one subnet on a network, and every subnet that names a gateway router served by it |
| RouterRuns.RunKept | provider/neutron/neutron_api.py:1315-1380 | The same over whole runs |
| RouterRuns.ReachablePairing | provider/neutron/neutron_api.py:634-667 | In every reachable state each router port has exactly one switch port of type router that names it, and the other way round, and router device owners mark the latter |
| RouterRuns.RouterPortIsNotDeleted | provider/neutron/validation.py:230-239 | `delete_port` refuses every switch port of a router, so it cannot break the pairing |
| RouterRuns.ReachableGatewayServes | provider/neutron/neutron_api.py:1150-1169 | A gateway router a subnet names exists and has a leg on the subnet's network with the gateway address |
| RouterRuns.DeletedRouterIsUnnamed | provider/neutron/neutron_api.py:1123-1133 | No subnet names a router that was deleted, so the guard of `delete_subnet` refuses only for a router that is there |
| RouterRuns.LookupsAgree | provider/ovndb/ovn_north.py:111-158 | Looking a subnet up by port and by network agree in every reachable state, and its network is the port's |
| RouterRoundTrips.DetachUndoesAttach | provider/neutron/neutron_api.py:1203-1231 | Attaching a subnet to a router and detaching it by subnet leaves all tables as they were |
| RouterRoundTrips.DeleteUndoesAddIff | provider/neutron/neutron_api.py:1123-1133 | Deleting a router just made with an external gateway, whose address is released, changes nothing but that a subnet whose own gateway address the router took names no router any more; so the tables are as before if and only if the gateway's address is not that of a subnet on a router |
| RouterRoundTrips.FirstGatewayIff | provider/neutron/neutron_api.py:1039-1102 | A router without gateway or default route takes any gateway that fits, and gets the default route of its IP version through the gateway of the subnet |
| RouterRoundTrips.DetachUndoesFirstGateway | provider/neutron/neutron_api.py:1431-1470 | Deleting the port of that gateway by its name gives back the row of the router, its routes, the reservation and both port tables exactly |
| RouterRoundTrips.NextGatewayIff | provider/neutron/neutron_api.py:1461-1470 | The router then takes the next gateway exactly when that one fits |
| RouterRoundTrips.UnreservedGatewayRaises | provider/neutron/neutron_api.py:1291-1313 | Where the address is not excluded any more, deleting the gateway port raises after ports, routes and gateway are gone |
| RouterCalls.AddedPortHasAddress | provider/neutron/neutron_api.py:557-632 | On a network with a subnet a new port has the address it asks for, or the one OVN assigns; without a subnet it has none; it is refused exactly when network, subnet or address cannot be had |
| RouterCalls.UpdatedPortHasAddress | provider/neutron/neutron_api.py:457-499 | The same for an update, which writes the owner even when the address is refused |
| RouterCalls.UpdatedPortWithoutAddress | provider/neutron/neutron_api.py:557-586 | Without a MAC, a port that has no addresses keeps none; the subnet asked for is checked all the same |
| RouterCalls.OtherNetworkIsRefused | provider/neutron/neutron_api.py:669-686 | An update that names another network writes nothing |
| RouterCalls.AttachedByPortIff | provider/neutron/neutron_api.py:1240-1270 | A port is attached exactly when it is not a router's, it has an address, and it and all ports of the router are on networks with subnets |
| RouterCalls.NewPortIsAttached | provider/neutron/neutron_api.py:1240-1270 | A port made without asking for an address, on a network with a subnet, is attached at the address OVN assigned it |
| RouterCalls.DetachAfterAttachDeletes | provider/neutron/neutron_api.py:1431-1459 | Attaching a port and detaching it deletes it, and changes nothing else but a subnet whose gateway address it had |
| RouterCalls.OthersLegIsRefused | provider/neutron/neutron_api.py:1431-1459 | The port of another router is not detached |
| RouterCalls.AttachedSubnetIsNotDeleted | provider/neutron/validation.py:267-273 | A subnet a router was attached to by it is not deleted |
| RouterCalls.SubnetDeletedIff | provider/neutron/neutron_api.py:907-920 | A subnet is deleted exactly when it names no gateway router; all else stays |
| RouterCalls.DeleteUndoesAddSubnet | provider/neutron/neutron_api.py:765-819 | A subnet is added exactly to a network without one, with the version and gateway given; deleting it restores the tables |
| RouterCalls.DeleteUndoesAddNetwork | provider/neutron/neutron_api.py:331-348 | Adding a network with or without localnet port and deleting it restores the tables |
| RouterCalls.NetworkDeletedIff | provider/neutron/validation.py:221-228 | A network is deleted exactly when it has no port but its one localnet port, and takes that port and its subnet along |
| RouterCalls.DeleteUndoesAddPort | provider/neutron/neutron_api.py:738-742 | A port that was added is deleted again, by row or by name, unless its owner says it is a router's |
| RouterCalls.NewRouterIs | provider/neutron/neutron_api.py:956-994 | A new router has exactly the routes asked for, and the default route of its gateway; refused for a gateway that does not fit or a default route beside it, and failing on a second route for a destination |
| RouterCalls.RoutesThenGateway | provider/neutron/neutron_api.py:1039-1102 | An update of a router changes its routes and then adds the gateway as on its own; a gateway that does not fit or a default route beside it is refused before anything is written, failing routes or a gateway that is there after the routes |
| RouterCalls.BothIsByPort | provider/neutron/neutron_api.py:1491-1499 | Deleting by subnet and port is deleting by port, for a port on the network of the subnet, and else refused |
| RouterExamples.DeletionForgets | provider/neutron/neutron_api.py:1150-1169 | A run from an empty database: a subnet attached to one router, and another router given the gateway address of the subnet as external gateway and deleted again; the first router and its interface are there, and the subnet names no gateway router |
| RouterSteps.StepLegs | provider/neutron/neutron_api.py:1203-1262 | Whatever the call, every leg of a router was there before or is the one the call makes, for the router and on the network it names |
| RouterSteps.StepSubnets | provider/neutron/neutron_api.py:1150-1169 | Whatever the call, a subnet that stays is unchanged but for its gateway router, which only attaching it by subnet gives it; a new one has none |
| Reservations.StepConservedIffSpared | provider/neutron/neutron_api.py:1272-1313 | A call that changes anything keeps the exclusions of every network equal to the addresses of external gateways on it if and only if it does not take a gateway port by row id or by subnet |
| Reservations.RunConservedIff | provider/neutron/neutron_api.py:1010-1019 | All along a run exclusions are the addresses of external gateways, if and only if every call of it that changes anything spares the gateway ports in that way |
| Reservations.ReachableReservations | provider/neutron/ip.py:115-136 | In every state such runs reach exclusions have no repetition, are exactly the addresses gateways hold, and static addresses are distinct and not among them |
| Reservations.DetachedByPortConserves | provider/neutron/neutron_api.py:1431-1470 | Deleting an interface by port releases what was reserved if and only if a gateway port is named, not given by row id |
| Reservations.DetachedBySubnetConserves | provider/neutron/neutron_api.py:1501-1537 | Deleting by subnet keeps reservations if and only if the router's gateway is not on that network |
| Reservations.RouterDeletedConserves | provider/neutron/neutron_api.py:1123-1133 | Deleting a router, or failing half-way, releases its gateway's address and no other |
| RouterExamples.ReservationForgotten | provider/neutron/neutron_api.py:1501-1537 | From an empty database: a network, a subnet, a router with a gateway, and its interface deleted by subnet leave the address excluded with no gateway that holds it |
| Routes.DiffRoutes | provider/neutron/ip.py:139-150 | The two dictionaries hold one next hop for each destination that is to come and to go, and nothing else |
| Routes.StaticRoutes.Reconcile | provider/neutron/neutron_api.py:1052-1068 | Removing and then adding what the difference says ends with exactly the requested routes if and only if the request has one next hop for each destination; no other route appears |
| Routes.ReconciledIffOneHop | provider/neutron/ip.py:139-150 | The same whatever next hop a dictionary keeps and in whatever order it is walked; every addition then meets a free destination |
| Routes.TwoHopsFail | provider/ovndb/ovn_north.py:103-104 | Two next hops for a destination, one of them in place, stop the update |
| Subnets.ReadsBack | provider/neutron/neutron_api_mappers.py:678-723 | What is read of the row any body makes, validated or not, field by field |
| Subnets.SubnetRoundTrip | provider/neutron/neutron_api_mappers.py:642-792 | A validated body reads back with the same cidr, network, version, gateway and first DNS server, and the address mode in the spelling of the API |
| Subnets.GatewayReadsBackIff | provider/neutron/neutron_api.py:829-871 | A gateway reads back if and only if an IPv6 prefix is not posted as version 4: the reason for the version check |
| Subnets.MismatchLosesGateway | provider/neutron/neutron_api.py:829-871 | An IPv6 prefix with a gateway, posted as version 4, is refused; stored all the same it would have its gateway nowhere |
| Subnets.CreationFailsIff | provider/neutron/neutron_api.py:854-871 | A validated body fails to be stored exactly when an IPv6 address mode comes without any MTU |
| Subnets.Ipv4OptionsAre | provider/neutron/neutron_api.py:830-852 | The DHCP options of an IPv4 subnet, key by key: the address of the prefix serves, with MAC, lease time, gateway, MTU and name server, and nothing else |
| Subnets.Ipv6OptionsAre | provider/neutron/neutron_api.py:830-852 | Those of an IPv6 subnet: the MAC serves, with a name server; it is never marked stateless, whichever mode it has |
| Subnets.ModeIsStored | provider/neutron/neutron_api.py:854-871 | The mode is stored in the spelling of the database whichever was posted, with the MTU beside it |
| Subnets.ValidatedIff | provider/neutron/neutron_api_mappers.py:741-812 | A body is valid exactly when DHCP is not turned off, prefix and gateway are of the version stated, a mode goes with IPv6 only in one of its four spellings, and an IPv6 prefix is of length 64 unless the mode is stateful as the API spells it |
| Subnets.SpellingDecides | provider/neutron/neutron_api_mappers.py:741-769 | The two spellings of the stateful mode are stored alike, but for a prefix that is not of length 64 validation takes one and refuses the other |
| Mtu.NetworkApi.GetLrpBySubnet | provider/ovndb/ovn_north.py:541-555 | The port found has the gateway address, on the gateway router when there is one; nothing is found only when no port has |
| Mtu.NetworkApi.UpdateNetwork | provider/neutron/neutron_api.py:210-238 | The writes of `update_network` do the whole step: the MTU of the network, and, unless it is 0 or the very string the subnet carries, that of the subnet and of the router port found |
| Mtu.NetworkApi.UpdateNetworksMtu | provider/neutron/neutron_api.py:279-329 | Subnet looked up by network, old MTU compared, subnet written and, for IPv6, the router port found by address |
| Mtu.OwnFits | provider/ovndb/ovn_north.py:541-555 | The interface of a subnet has the gateway address and the prefix length the lookup goes by |
| Mtu.AlwaysHitsIff | provider/neutron/neutron_api.py:279-329 | Whatever the lookup of an update returns, it hits, if and only if for an IPv6 subnet every port with the gateway address and prefix length is its interface, or that carries the MTU already, and no such port is the interface of another subnet with another MTU; or, where nothing is written, the interface carries the MTU |
| Mtu.AloneIsReached | provider/ovndb/ovn_north.py:541-555 | An interface that alone has its address and prefix length is what the lookup returns, and an update that writes cannot miss it |
| Mtu.StepAlwaysCoheresIff | provider/neutron/neutron_api.py:789-800 | Every call of the router runs, with external gateways and deletions, keeps network, subnet and interface at one MTU; an update does, whatever its lookup returns, if and only if that condition on the tables holds before it |
| Mtu.RunAlwaysCoheresIff | provider/neutron/neutron_api.py:210-238 | All along a run, whatever its lookups return, the MTUs agree exactly when the condition holds before every update of it |
| Mtu.ReachableMtu | provider/neutron/neutron_api.py:1382-1400 | From an empty database, where the condition holds before every update: a network with a positive MTU has it on its subnet and in the router advertisements of the interface an IPv6 subnet is attached by |
| MtuExamples.SharedAddressMisses | provider/ovndb/ovn_north.py:541-555 | From an empty database: an external gateway is given the address of an interface of its router, an update of the MTU finds it first, and the interface goes on advertising the old MTU |
| MtuExamples.LoneInterfaceIsReached | provider/ovndb/ovn_north.py:541-555 | Before that gateway is added the same update meets the condition |
| MtuCalls.NewSubnetMtu | provider/neutron/neutron_api.py:787-800 | A new subnet carries the MTU of its network, or the configured one when the network has none; an IPv6 subnet only with an address mode |
| MtuCalls.NewPortAdvertises | provider/neutron/neutron_api.py:1382-1400 | A router port made by attaching advertises the MTU of an IPv6 network; one for an IPv4 subnet, or of an external gateway, none |
| MtuCalls.UpdateTouchesOnly | provider/neutron/neutron_api.py:279-329 | An update touches the MTU of the network, of its subnet, and of a router port at the gateway address and prefix length of an IPv6 subnet on the router the subnet names |
| MtuCalls.UpdateWritesIff | provider/neutron/neutron_api.py:279-329 | Subnet and port are written unless the MTU is the number 0 or the very string the subnet carries |
| DbSet.KeyAfter | provider/ovndb/db_set_command.py:27-40 | After a conditional write a key of a map column holds what the last enabled write to it said, or what it held before |

## Left out

- HTTP, TLS, authentication, configuration files, logging, the vdsm driver and hooks, Ansible and containers: I/O or thin wrappers.
- Query filters, error mapping and plain copies of fields to REST: easy members only.
- The two reserved keys of the dispatch tree: parts of a URL path never hold a `#`.  Nested dictionaries are rows of one table that refer to each other by index.
- netaddr: addresses are canonical values, prefixes are strings whose meaning is a parameter, and parsing does not happen.
- Unknown directions, which raise a KeyError, and digits outside ASCII.
- Connection tracking of `allow-related`: a verdict is about the packet alone.
- OVN's lexer, which may reject a number with leading zeros that the provider lets through.
- Security groups: description, tenant, project and timestamps; the reading back of a rule's own fields.
- Verdicts.ReachableRuleVerdict: in terms of rules it needs those that are added to have a known ethertype and a recognised protocol; in terms of ACLs `Verdicts.ReachableVerdict` needs nothing.
- SecurityGroupApi.SecurityGroupApi.AddPort: whether the checks of its addresses raise is a parameter here; `RouterApi.RouterApi.AddPort` computes it.
- SecurityGroupApi.SecurityGroupApi.UpdatePort: the same; `Routers.PortUpdated` computes it.
- A port of the security calls is a row, whichever of its name and row id a caller gives.
- `update_port` on a port of a router: it writes the device owner and then raises; also its admin state.
- Replacing an external gateway that is there: modelled as the error it raises.
- One router port per subnet when attaching by port, and unique gateways per router: the code compares what can never be equal, and the model does not claim them.
- Changing the gateway of a subnet while it is attached; `update_subnet` as a whole.
- Switching a network's localnet port on and off, ranges in `exclude_ips`, and the rejection of fixed addresses on stateless subnets, whose spelling never matches.
- The netmask of router ports and MAC addresses, except for the prefix length in `Mtu.dfy`.
- `add_subnet` writes to the options of the network and to the ports, which the latter leaves unchanged.
