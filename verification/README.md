# k3s, modelled and proved in Dafny

This project models the parts of k3s whose correctness depends on more than one function, and proves what they promise:

- the **network policy agent**: policies are turned into an internal form, compiled to ACCEPT-only chains over ipsets, linked from per-pod firewall chains that the base chains jump to, and stale chains and sets are collected. The model goes command by command; every command may fail, and the kernel's table is logged after each one;
- the **bootstrap protocol** of servers that share an external datastore, with crashes anywhere, and what it makes of their password files;
- the **learner manager** and the **snapshot retention** of the embedded etcd;
- the **client load balancer** and the **tunnels** of an agent;
- the **hosts text** that the node controller keeps for CoreDNS;
- **join tokens** and the **password file**.

`dafny verify dfyconfig.toml` checks the whole project.

## How it is modelled

Code that updates tables, maps or files is modelled by classes and methods with loops, each proved against a specification function; what is promised is then proved of those functions, or as an invariant that every step keeps. Errors are statuses. Clocks, random numbers, outcomes of foreign calls and the order of map iteration are arbitrary: parameters, or nondeterministic choices.

Three facts about the environment are built in.

- `Netfilter` and `Kernel` state what the filter table and ipset do: ACCEPT and REJECT end the evaluation, a chain that runs out returns, a `hash:net` set decides by its most specific match, a rule is taken only if its target and sets exist, and a chain or set that is referenced is not removed. Any command may also fail without such a reason; `faults` counts these failures, so that what happens in their absence can be stated: every method says when it must succeed, not only what holds if it does.
- Substring search for a chain name in a listed rule finds the names the rule mentions (`Names`). Names of one kind have one length, so one name is not part of another.
- Digests are 16 characters; nothing else is assumed of them. Where different things must get different names, a sync asks for an orderly start (`Orderly`). That is derived from a digest that does not confuse the texts in use, and from what can be read off the policies and pods (`OrderlyByNames`, `ColdOrderly`, `NextVersionFresh`). The second part cannot be dropped, whatever the digest, because the digested text joins its parts without a separator (`NamesCollide`, `CollisionsExist`).

The run of syncs starts from any table in which references resolve, pod chains keep their REJECT last, and foreign rules neither jump to the agent's chains nor use its sets (`Firewall.Sound`).

## Results that are not what one might expect

For each, a lemma says exactly when what one would expect holds, and where a concrete input is not obvious from that, another lemma gives one.

- A packet between two pods of this node that are isolated for egress and for ingress is decided by the source's chain alone, because the egress jumps are inserted in front of the ingress jumps and every pod chain decides. The destination's policies are overruled exactly when the source's chain accepts what the destination's would reject (`ForwardExact`; `DestinationOverruled`, `DestinationReached`).
- The numerals of a rule and of a port run into each other in the name of a set, so the commands of a policy are coherent exactly when named ports that are confused in this way lead to the same addresses; with at most ten rules in each direction none are (`PolicyCoherentExactly`, `TenRulesUnambiguous`; `RulesCollide`).
- A rule whose ports are all names that no pod in scope exposes lets every port through between the selected pods, because the compiler tests list lengths (`RuleCompiledExactly`, `VacuousUnresolved`; `UnresolvedPortsOpen`, `PortNobodyExposes`).
- An exception that is not more specific than its block has no effect (`BlockSetExact`; `WideExceptionLost`). Several blocks of one rule share a set, in which an exception of one block can take addresses from another, depending on the order of the peers (`MergedExactly`; `OrderMatters`).
- A refresh that finds a leftover temporary set installs the leftover members too (`RefreshExact`; `LeftoverLeaks`).
- The final teardown passes over a failed deletion but counts it, so later deletions hit the rule that many places earlier (`SweepMentions`; `FailedDeletionShifts`).
- When listing the chains fails, cleanup goes on as if there were none; if nothing else fails it finishes exactly when no stale set is referenced (`CleanupStaleRules`; `FailedListingStuck`).
- Stored times lose up to a second, so the minute of stall is sure only when progress was seen on a whole second, and 59 seconds otherwise (`EvictionOnRealClock`); at every other time an early eviction can follow (`TruncationCosts`); the last minute was free of progress exactly when no look in it failed to write what it saw (`EvictionSafe`; `FailedPutForgets`).
- One snapshot is pruned per run, so an excess is never made up for (`RetentionExactly`, `ExcessStays`); name order is time order exactly when the earlier time is at most the leading digits of the later one, and otherwise pruning removes the newer snapshot (`NameOrder`, `RetainOne`; `NamesDisordered`).
- An early return in the hosts update is right exactly when the last line for the host is the wanted one (`EarlyReturnExactly`; `RepeatedHostGoesWrong`).
- The password file is stored and loaded with the other files, but a start may change the node's entry in it. Any two stamped servers have the same password file exactly when the agent tokens they were last started with ask for the same node's password (`PasswordAgreement`, `RawAgentsAgree`; `PasswordsMayDiffer`).
- An empty list of ipset options comes back as one empty option (`RoundTripExactly`).
- A user name with a colon does not survive a token (`ParseUndoesFormat`); a full token gives node and server one password exactly when it is the server's (`ForeignTokenDiffers`).

## Model

| member | source | states |
|---|---|---|
| `IpBlocks.EvalIPBlockPeer` | pkg/agent/netpol/network_policy_controller.go:1364-1381 | the loop over a block and its exceptions emits the CIDR, then every exception with nomatch, a /0 as two /1 halves |
| `IpBlocks.BlockSetMeaning` | pkg/agent/netpol/network_policy_controller.go:1364-1381 | for every block and address, the emitted set accepts exactly the CIDR without the exceptions stored at least as specifically as the CIDR |
| `IpBlocks.BlockSetExact` | pkg/agent/netpol/network_policy_controller.go:1364-1381 | the set means "in the CIDR and in no exception" for all addresses if and only if no exception stored less specifically than the CIDR holds its base, or the other exceptions leave nothing of it |
| `IpBlocks.InnerExceptionsExact` | pkg/agent/netpol/network_policy_controller.go:1364-1381 | with exceptions strictly inside the CIDR the set accepts exactly the CIDR minus the exceptions |
| `IpBlocks.WideExceptionLost` | pkg/agent/netpol/network_policy_controller.go:1364-1381 | a concrete block whose wider exception is ignored |
| `IpBlocks.InNetMeaning` | pkg/agent/netpol/network_policy_controller.go:1364-1381 | what it is for an address to lie in a network, by division |
| `BlockUnion.MergedMeaning` | pkg/agent/netpol/network_policy_controller.go:1238-1252 | for every list of blocks and every address, the set they share accepts it exactly when the CIDR of some block holds it and beats every exception of any block that holds it: more specific, or as specific and of a later block |
| `BlockUnion.MergedWithinUnion` | pkg/agent/netpol/network_policy_controller.go:1238-1252 | the shared set accepts only what one of the blocks accepts alone |
| `BlockUnion.MergedExactly` | pkg/agent/netpol/network_policy_controller.go:1238-1252 | it accepts exactly what some block accepts that no exception of another block shadows there |
| `BlockUnion.OrderMatters` | pkg/agent/netpol/network_policy_controller.go:1238-1252 | two concrete blocks of which the order decides about an address |
| `Ipset.Handler.Create` | pkg/agent/netpol/utils.go:179-214 | the set is cached and, unless a command fails, exists afterwards; a set that exists keeps its contents; nothing else changes |
| `Ipset.Handler.Fill` | pkg/agent/netpol/utils.go:218-247 | at every command only the temporary set differs; on success it holds what it held plus the entries |
| `Ipset.Handler.Refresh` | pkg/agent/netpol/utils.go:453-525 | at every command the live set holds its old or the complete new members and no third set changes; on success the temporary set is gone from system and cache; it succeeds when the types match, the entries fit and no command fails |
| `Ipset.RefreshExact` | pkg/agent/netpol/utils.go:453-525 | a refresh installs exactly the requested entries if and only if the temporary set was absent or held only requested members |
| `Ipset.LeftoverLeaks` | pkg/agent/netpol/utils.go:453-487 | a concrete refresh that installs a leftover member |
| `IpsetText.ParseIPSetSave` | pkg/agent/netpol/utils.go:334-358 | the loop computes what the saved text says, or stops exactly where the text is malformed |
| `IpsetText.SavedLines` | pkg/agent/netpol/utils.go:330-358 | what a "create" line and an "add" line say, for every name and options, and that an "add" line for an unknown set stops the program |
| `IpsetText.BuildIPSetRestore` | pkg/agent/netpol/utils.go:362-371 | for every collection with plain tokens and every iteration order, parsing the text gives the collection with empty option lists padded, and the collection itself if and only if no list is empty |
| `IpsetText.RoundTripExactly` | pkg/agent/netpol/utils.go:334-371 | padding is the identity on a collection if and only if no option list is empty |
| `Build.EvalPodPeer` | pkg/agent/netpol/network_policy_controller.go:1316-1362 | the pods listed for a peer are exactly those the peer selects, by namespace selector, pod selector or both |
| `Build.GrabNamedPortFromPod` | pkg/agent/netpol/network_policy_controller.go:1383-1409 | the index gains exactly the named ports of the pod, under its address |
| `Build.ProcessNetworkPolicyPorts` | pkg/agent/netpol/network_policy_controller.go:1115-1133 | numeric ports are exactly the numbered and open entries, named ports exactly the endpoints the index has for a name and protocol |
| `Build.EvalPeers` | pkg/agent/netpol/network_policy_controller.go:1238-1252 | peer addresses and block entries are those of all peers of the rule |
| `Build.BuildRule` | pkg/agent/netpol/network_policy_controller.go:1228-1309 | the internal rule represents the specified one |
| `Build.PolicyTypes` | pkg/agent/netpol/network_policy_controller.go:1172-1198 | the directions a policy isolates, explicit or inferred |
| `Build.BuildPolicy` | pkg/agent/netpol/network_policy_controller.go:1165-1310 | targets and types represent the specified ones; for each direction there is one internal rule for every rule of the policy's list, in order, that represents it, and none when the list is missing |
| `Build.BuildNetworkPoliciesInfo` | pkg/agent/netpol/network_policy_controller.go:1155-1314 | every policy is represented, in lister order |
| `Policies.PortsPreserved` | pkg/agent/netpol/network_policy_controller.go:1115-1133 | a represented rule matches the ports of a packet exactly when the specification allows them |
| `Policies.PeerBlocksMeaning` | pkg/agent/netpol/network_policy_controller.go:1238-1252 | the emitted entries of all IPBlock peers accept exactly the addresses that the blocks admit, stated on CIDRs and exceptions |
| `Policies.SingleBlock` | pkg/agent/netpol/network_policy_controller.go:1364-1381 | with one IPBlock peer whose exceptions lie inside it, that is the CIDR without the exceptions |
| `Policies.RulePreserved` | pkg/agent/netpol/network_policy_controller.go:1228-1309 | a represented rule allows a packet exactly when the specification does, for every packet |
| `Policies.PolicyAllowsExactly` | pkg/agent/netpol/network_policy_controller.go:1228-1309 | a policy allows a packet if and only if some rule of its ingress list or of its egress list does, any of them |
| `Policies.PeerSelectors` | pkg/agent/netpol/network_policy_controller.go:1316-1362 | both selectors together select what each does alone, the pod selector in the pod's own namespace; without a namespace selector only pods of the policy's namespace, without either none; an empty selector selects all |
| `Policies.TypesExactly` | pkg/agent/netpol/network_policy_controller.go:1172-1198 | a policy isolates in exactly the directions it lists; without a list in those it has rules for, and for ingress unless it has egress rules alone |
| `Scenarios.ShopPasses` | pkg/agent/netpol/network_policy_controller.go:1155-1409 | a policy with two ingress rules, an egress rule, both selectors, a named port, a port number, a whole protocol and a network with an exception: exactly which packets, of all, it allows and lets through |
| `Scenarios.ShopVerdict` | pkg/agent/netpol/network_policy_controller.go:696-928 | the verdict due to every packet in the chain of the pod it targets |
| `Scenarios.ShopIsolates` | pkg/agent/netpol/network_policy_controller.go:1059-1113 | the pods of each node that it isolates, in both directions |
| `Scenarios.SharedAddress` | pkg/agent/netpol/network_policy_controller.go:1059-1113 | two pods that share an address: it is isolated only on the node of the one in the policy's namespace |
| `Scenarios.ShopValid` | pkg/agent/netpol/network_policy_controller.go:1155-1314 | the policy meets the hypotheses of the results on enforcement |
| `Policies.RuleWellFormed` | pkg/agent/netpol/network_policy_controller.go:1228-1309 | what the construction guarantees of every internal rule: match-all flags exclude lists, named endpoints lie among the targets or peers |
| `Naming.ChainKindsDisjoint` | pkg/agent/netpol/network_policy_controller.go:1470-1480 | no name is both a pod chain and a policy chain, and neither is a base chain |
| `Naming.NamesCollide` | pkg/agent/netpol/network_policy_controller.go:1470-1528 | namespace and name pairs with one concatenation share all chain and set names (ten kinds), whatever the digest, and unless the digest collides no other pairs share a policy chain |
| `Naming.CollisionsExist` | pkg/agent/netpol/network_policy_controller.go:1470-1528 | whatever the digest, two concrete policies that share a chain and two concrete rules of one policy that share a set |
| `Naming.RulesCollide` | pkg/agent/netpol/network_policy_controller.go:1518-1528 | named ports of two rules of one policy share a set whenever the numerals of rule and port concatenate to one string |
| `Distinctness.SetsOfPolicy` | pkg/agent/netpol/network_policy_controller.go:1482-1528 | under a digest without collisions two sets of a policy share a name if and only if they are one set, or hold named ports of one direction whose numerals run together to the same digits; so pod and block sets of different rules, and sets of different kinds, differ |
| `Distinctness.PolicyServes` | pkg/agent/netpol/network_policy_controller.go:282-694 | the set commands of a policy are exactly those of its uses: the targets, and the pods, blocks and named ports of each rule, each with its contents |
| `Distinctness.CoherentExactly` | pkg/agent/netpol/network_policy_controller.go:1482-1528 | the commands of a whole sync are coherent if and only if set texts that coincide stand for the same contents |
| `Distinctness.PolicyCoherentExactly` | pkg/agent/netpol/network_policy_controller.go:1495-1528 | the commands of one policy are coherent if and only if named ports whose numerals run together alike lead to the same addresses |
| `Distinctness.TenRulesUnambiguous` | pkg/agent/netpol/network_policy_controller.go:1518-1528 | which is so for every policy with at most ten rules in each direction |
| `Distinctness.SeparateCoherent` | pkg/agent/netpol/network_policy_controller.go:1482-1528 | the commands of a whole sync are coherent when that is so of each policy, and no policy's namespace and name run together to the text of another or of one of its rules |
| `Distinctness.PolicyChainsExactly` | pkg/agent/netpol/network_policy_controller.go:1476-1480 | policies get different chains if and only if their namespaces and names do not run together to one text |
| `Distinctness.PodChainsExactly` | pkg/agent/netpol/network_policy_controller.go:1470-1474 | pods get different chains if and only if their namespaces and names do not run together to one text |
| `Distinctness.PodChainsAlike` | pkg/agent/netpol/network_policy_controller.go:1470-1474 | pod chains of two versions coincide if and only if namespace, name and version run together to one text |
| `PlanNames.OrderlyByNames` | pkg/agent/netpol/network_policy_controller.go:228-275 | a start with a fresh version and nothing in its way is orderly for every digest without collisions and every plan with texts of its own |
| `PlanNames.ColdOrderly` | pkg/agent/netpol/network_policy_controller.go:228-275 | a start on a system without chains and sets of the agent is orderly, whatever the version |
| `PlanNames.NextVersionFresh` | pkg/agent/netpol/network_policy_controller.go:228-275 | after a sync that could list the chains, any other version of the same length is fresh |
| `PlanNames.TwoRulesOrderly` | pkg/agent/netpol/network_policy_controller.go:1482-1528 | a concrete policy with two rules: its first sync starts in order, and its rules have sets of their own |
| `PlanNames.TwoRulesTold` | pkg/agent/netpol/network_policy_controller.go:1482-1528 | a digest that meets the hypotheses for it |
| `Compile.RuleCompiled` | pkg/agent/netpol/network_policy_controller.go:356-694 | the rules emitted for one policy rule accept a packet exactly when the rule allows it or leaks it |
| `Compile.RuleCompiledExactly` | pkg/agent/netpol/network_policy_controller.go:426-434 | the emitted rules mean the rule for all packets if and only if it does not combine selected pods with ports of which none resolved |
| `Compile.UnresolvedPortsOpen` | pkg/agent/netpol/network_policy_controller.go:426-434 | a concrete rule, with its sets, that admits every packet from one pod to another on any port and means to allow none |
| `Compile.PolicyCompiled` | pkg/agent/netpol/network_policy_controller.go:282-694 | the commands of a policy admit exactly the packets that one of its rules allows or leaks |
| `CompileSets.PolicyTidy` | pkg/agent/netpol/network_policy_controller.go:298-694 | the rules of a policy only accept, and use only sets that its own earlier commands create, all with proper names |
| `CompileSets.PolicyFit` | pkg/agent/netpol/network_policy_controller.go:298-694 | the entries that a well-formed policy asks for fit their sets |
| `Firewall.ProtectedDecides` | pkg/agent/netpol/network_policy_controller.go:758-812 | when FORWARD jumps for the packets to or from an address into a pod chain that ends in REJECT, FORWARD decides every such packet |
| `Firewall.GoodStable` | pkg/agent/netpol/network_policy_controller.go:298-925 | every building command, from any good state, keeps references resolved, layers respected, REJECT last and guarded packets guarded |
| `Firewall.GoodRemove` | pkg/agent/netpol/network_policy_controller.go:984-1036 | deleting a rule that closes nothing and guards nothing keeps all of that |
| `PodChains.SettlesInNormalForm` | pkg/agent/netpol/network_policy_controller.go:710-925 | a fresh chain is in normal form after either loop, and the egress loop after the ingress loop changes nothing |
| `PodChains.NormalFormVerdict` | pkg/agent/netpol/network_policy_controller.go:710-925 | the verdict of a chain in normal form depends only on the packet, the pod and the policies that target it |
| `Sync.Controller.EnsureChain` | pkg/agent/netpol/network_policy_controller.go:300-305 | the chain is created empty or nothing changes; exit status 1 is passed over; without faults the chain exists afterwards |
| `Sync.Controller.EnsureFront` | pkg/agent/netpol/network_policy_controller.go:732-741 | the rule is at the front unless it was there; on failure nothing changes; it succeeds when the rule resolves and no command fails |
| `Sync.Controller.EnsureBack` | pkg/agent/netpol/network_policy_controller.go:689-693 | the rule is at the back unless it was there; on failure nothing changes; it succeeds when the rule resolves and no command fails |
| `Sync.Controller.AddJumps` | pkg/agent/netpol/network_policy_controller.go:727-743 | when no error was passed over, the chain gained in front one jump for every policy that targets the pod |
| `Sync.Controller.LinkPod` | pkg/agent/netpol/network_policy_controller.go:758-804 | the base chains only gain jumps of the pod in front; on success all jumps for the direction are there: routed and bridged in FORWARD, and routed in OUTPUT for traffic to the pod |
| `Sync.Controller.ClosePodChain` | pkg/agent/netpol/network_policy_controller.go:806-826 | on success the chain ends in REJECT and has the stateful accept |
| `Sync.Controller.SyncPod` | pkg/agent/netpol/network_policy_controller.go:710-827 | one round of either loop: nothing is lost, only this chain and the base chains change, the latter only in front; on success the pod is linked, its packets guarded and the chain the specified pass over what it was; it succeeds when the policy chains exist and no command fails |
| `Sync.Controller.RefreshSet` | pkg/agent/netpol/utils.go:453-525 | within a sync a refresh keeps every state good and all other policy sets, and installs exactly the entries when there are no leftovers |
| `Sync.Controller.UseSet` | pkg/agent/netpol/network_policy_controller.go:311-336 | create and refresh; a failed refresh is reported and passed over |
| `Sync.Controller.ApplyOps` | pkg/agent/netpol/network_policy_controller.go:356-694 | after the commands of a policy its chain gained exactly the compiled rules and, if all went through, the sets hold exactly the compiled entries; when no command fails all are issued to the end, and all go through from a steady state |
| `SyncPolicies.SyncPolicy` | pkg/agent/netpol/network_policy_controller.go:296-346 | one policy: its own chain alone changes, added rules use only its sets, and if all went through the chain is new and holds exactly the compiled rules; when no command fails it ends with the chain there, whatever it found |
| `SyncPolicies.SyncNetworkPolicyChains` | pkg/agent/netpol/network_policy_controller.go:282-354 | all policies: the same for every policy at once, with chain names distinct and all sets filled when everything went through, which it does from a steady state when no command fails; from any state it then ends with all chains there |
| `SyncPolicies.RealisedConcat` | pkg/agent/netpol/network_policy_controller.go:296-346 | later policies leave the sets of earlier ones as they are, or fill them alike |
| `SyncPods.EnabledPods` | pkg/agent/netpol/network_policy_controller.go:1059-1113 | the addresses are exactly those of pods on this node to which a policy of their namespace applies, each with the last such pod listed |
| `SyncPods.GuardGrows` | pkg/agent/netpol/network_policy_controller.go:710-925 | a guard survives every change that loses nothing and keeps REJECT last |
| `SyncPods.SyncPodChains` | pkg/agent/netpol/network_policy_controller.go:710-827 | one loop over the pods in any order: all rounds together, every pod guarded in its direction, the base chains changed only by jumps of the loop in front |
| `SyncPods.BothSettled` | pkg/agent/netpol/network_policy_controller.go:705-925 | after both loops every pod's chain is in normal form, with the local-node rule exactly for ingress pods |
| `SyncPods.SyncPodFirewallChains` | pkg/agent/netpol/network_policy_controller.go:696-928 | both loops: what changed, that every pod is linked and guarded, that the base chains begin with the egress jumps, then the ingress jumps, then what was there, and normal form when names are fresh and no error was passed over; it finishes when the policy chains exist and no command fails |
| `Deletion.DeleteMentions` | pkg/agent/netpol/network_policy_controller.go:980-1001 | deleting by number less deletions so far leaves exactly the rules that do not mention the chain, in order, and keeps every state good; it stops only when a command fails |
| `Deletion.ClearMembers` | pkg/agent/netpol/network_policy_controller.go:980-1001 | the filtered list has exactly the rules that mention no stale chain |
| `Deletion.WithoutFirstMentions` | pkg/agent/netpol/network_policy_controller.go:1027-1035 | deleting the first mention of a policy chain leaves none if there was at most one, and no more mentions of any other |
| `Deletion.SweepMentions` | pkg/agent/netpol/network_policy_controller.go:1548-1570 | the teardown leaves what the sweep function says for the deletions that worked, and exactly the rules without pod chains if and only if no command failed |
| `Deletion.SweepLeaves` | pkg/agent/netpol/network_policy_controller.go:1548-1570 | for every pattern of failures one rule too many is left for each failed deletion, and the right ones when none failed |
| `Deletion.SweepPrefix` | pkg/agent/netpol/network_policy_controller.go:1548-1570 | whatever fails later, all rules before the first failed deletion are dealt with rightly |
| `Deletion.FailedDeletionShifts` | pkg/agent/netpol/network_policy_controller.go:1548-1554 | a concrete sweep in which an innocent rule goes and the two others stay |
| `Cleanup.UnlinkPodChains` | pkg/agent/netpol/network_policy_controller.go:968-1001 | over all stale pod chains, FORWARD and OUTPUT keep exactly the rules that mention none of them, in order |
| `Cleanup.RemovePodChains` | pkg/agent/netpol/network_policy_controller.go:1003-1015 | the stale pod chains go and everything else stays; it is held up only by a reference or a failed command |
| `Cleanup.UnlinkedUnreferenced` | pkg/agent/netpol/network_policy_controller.go:968-1015 | once unlinked, a stale pod chain is referenced by nothing |
| `Cleanup.DropMentions` | pkg/agent/netpol/network_policy_controller.go:1021-1036 | each active pod chain loses exactly its first mention of the policy chain; a failed listing is passed over |
| `Cleanup.RemovePolicyChains` | pkg/agent/netpol/network_policy_controller.go:1017-1047 | the stale policy chains go and active pod chains lose only rules that mention them; without faults it finishes whenever active pod chains mention each at most once and other pod chains none; it is blocked only if some pod chain mentioned one |
| `Cleanup.DestroySets` | pkg/agent/netpol/network_policy_controller.go:1049-1055 | the stale sets go, each unreferenced, and the others are unchanged; it is held up only by a reference or a failed command |
| `Cleanup.CleanupStaleRules` | pkg/agent/netpol/network_policy_controller.go:930-1057 | guards hold in every state; a finished cleanup leaves active chains and sets as they were and nothing stale that was listed; a removal is refused only if an active chain leads to something inactive or the listing failed; it finishes when active chains are closed and no command fails, and after a failed listing alone exactly when no stale set is referenced |
| `Cleanup.FailedListingStuck` | pkg/agent/netpol/network_policy_controller.go:945-959 | a concrete table with a stale set in use |
| `Enforcement.VacuousUnresolved` | pkg/agent/netpol/network_policy_controller.go:426-434 | in terms of the cluster: the leaking rules are exactly those whose ports are all names exposed by no pod in scope |
| `Enforcement.PortNobodyExposes` | pkg/agent/netpol/network_policy_controller.go:426-434 | a concrete cluster and policy for which every packet between two pods passes and none is allowed |
| `Enforcement.PolicyMeaning` | pkg/agent/netpol/network_policy_controller.go:1155-1314 | a built policy decides every packet as the policy object does, leak included |
| `Enforcement.ChainMeaning` | pkg/agent/netpol/network_policy_controller.go:282-694 | the chain written for a policy accepts exactly what the policy object lets through |
| `Enforcement.PodVerdict` | pkg/agent/netpol/network_policy_controller.go:282-928 | the chain of a pod accepts a packet exactly when it is established, local to an ingress pod, or passes a policy of the cluster that targets the pod, and rejects all others |
| `Forwarding.LoopVerdict` | pkg/agent/netpol/network_policy_controller.go:758-804 | behind the jumps of one loop, a packet with a pod of the loop at that end gets the verdict of the pod's chain, and any other passes on |
| `Forwarding.FrontsCleaned` | pkg/agent/netpol/network_policy_controller.go:968-1001 | cleanup leaves the jumps of both loops in front, and behind them the old rules without those to old pod chains |
| `Forwarding.BasesDecided` | pkg/agent/netpol/network_policy_controller.go:696-928 | what FORWARD says of every packet: the verdict due in the source's chain if it has one, else in the destination's, else what the old rules say; and OUTPUT: the destination's, else the old rules |
| `Forwarding.ForwardExact` | pkg/agent/netpol/network_policy_controller.go:705-905 | for a packet with a chain at one end or both, FORWARD says what all its chains together say if and only if it is not so that both ends have a chain, the source's accepts and the destination's rejects |
| `Forwarding.DestinationOverruled` | pkg/agent/netpol/network_policy_controller.go:705-905 | a concrete cluster of two pods on one node whose policies let one send everything and the other receive nothing |
| `Forwarding.DestinationReached` | pkg/agent/netpol/network_policy_controller.go:705-905 | after a sync of that cluster FORWARD accepts every new packet between the two, which the destination's chain is due to reject |
| `Reconcile.EnabledMeaning` | pkg/agent/netpol/network_policy_controller.go:1059-1113 | an address is enabled exactly when a pod of this node with it is isolated by a policy object of its namespace |
| `Reconcile.NotBlocked` | pkg/agent/netpol/network_policy_controller.go:930-1057 | under a fresh version every removal in cleanup is of something that no remaining rule references |
| `Reconcile.AllLinksStay` | pkg/agent/netpol/network_policy_controller.go:968-1001 | cleanup leaves the jumps of all active pods in FORWARD and OUTPUT |
| `Reconcile.OrderlySyncs` | pkg/agent/netpol/network_policy_controller.go:228-260 | an orderly start and valid policies leave nothing in the way of the policy phase |
| `Reconcile.SyncedEnforced` | pkg/agent/netpol/network_policy_controller.go:228-275 | after a clean orderly sync and its cleanup every pod's own chain gives every packet the verdict due to it |
| `Reconcile.SyncedForwards` | pkg/agent/netpol/network_policy_controller.go:228-275 | and FORWARD and OUTPUT give every packet the verdict of the chain that gets it first, or of the old rules |
| `Reconcile.SyncOnce` | pkg/agent/netpol/network_policy_controller.go:228-275 | one sync, aborted anywhere or not: packets to or from an address that were guarded and still need it are protected in every state on the way; a finished sync leaves of the agent's chains and sets only those of its own policies and pods, all chains and sets of others as they were, and every pod linked; when clean and orderly, every pod's chain gives the verdict due to each packet, and FORWARD and OUTPUT that of the first chain in their order; a sync in which no command fails finishes if its names are fresh, whatever leftovers it finds, and cleanly from an orderly start |
| `Reconcile.RunSyncs` | pkg/agent/netpol/network_policy_controller.go:228-275 | over every run of syncs, references resolve in every state, the packets to an ingress address or from an egress address covered by a finished sync and isolated since are protected in every state of every later sync, and every sync keeps its promises, starting where the one before ended |
| `Reconcile.Recovers` | pkg/agent/netpol/network_policy_controller.go:228-275 | in every run, whatever the syncs before left behind, two successive syncs in which no command fails and names are fresh end with every policy of the second enforced by the pods' chains, FORWARD and OUTPUT |
| `Bootstrap.StartUpValid` | pkg/daemons/control/server.go:337-370 | every bootstrap field is produced by one step of start-up, and all but the password file by one that keeps what is there |
| `StartUps.StartKeeps` | pkg/daemons/control/server.go:337-370 | field by field, over a whole start: each of the five certificate authorities is kept with its own key if both are there, and the key if it is there alone; the service key is kept; an IPSEC key or encryption configuration is kept unless it is empty, and then replaced; the password file has the users that token and agent token ask for among the entries it had |
| `StartUps.StepAlone` | pkg/daemons/control/server.go:337-370 | a start does to the files of one step what that step does, and nothing else |
| `Bootstrap.Cluster.ShouldBootstrapLoad` | pkg/cluster/bootstrap.go:42-96 | a start with its agent token; the flags are set by the stamp alone, as a step of the protocol |
| `Bootstrap.Cluster.StorageBootstrap` | pkg/cluster/storage.go:31-56 | the stored files are loaded, or saving is resolved upon only if nothing was stored |
| `Bootstrap.Cluster.Load` | pkg/bootstrap/bootstrap.go:44-71 | the files are written in any order, each a step of the protocol, with torn writes on failure |
| `Bootstrap.Cluster.GenerateItem` | pkg/daemons/control/server.go:771-813 | what exists is kept, what is missing is made, the users are ensured for the agent token of this start, as a step of the protocol; a malformed password file ends the start |
| `Bootstrap.Cluster.EnsureUsers` | pkg/daemons/control/server.go:453-479 | it fails exactly when the password file is malformed; otherwise the file becomes what `Tokens.Users` makes of its entries, the token, the agent token and some draws, and is written only if that changes anything |
| `Bootstrap.Cluster.Save` | pkg/cluster/storage.go:15-27 | the key is created with a snapshot of the files, or another server was first, or something failed, possibly after creating it |
| `Bootstrap.Cluster.Start` | pkg/cluster/cluster.go:31-63 | the files are stored first and the stamp left last |
| `Bootstrap.Cluster.Prepare` | pkg/daemons/control/server.go:337-370 | every statement of a start, with other servers at work in between, is a step of the protocol; the server ends up running, stamped, in agreement and with the users of its agent token, unless something failed or another server stored its files meanwhile; the files of a server that has a stamp, or finds nothing stored, go through exactly the steps of start-up |
| `Bootstrap.NextKeeps` | pkg/cluster/cluster.go:31-63 | every step or crash of any server keeps the invariant, and a stored value is never replaced |
| `Bootstrap.LocalKeeps` | pkg/cluster/bootstrap.go:42-142 | loading, generating and stamping keep a server's part of the invariant |
| `Bootstrap.CreateKeeps` | pkg/cluster/storage.go:15-27 | creating the key stores a complete snapshot that agrees with the server's files, even if it is reported as failed |
| `Bootstrap.CrashKeeps` | pkg/bootstrap/bootstrap.go:44-71 | a crash in the middle of writing a file never damages an agreed file of a stamped server |
| `Bootstrap.WrittenOnce` | pkg/cluster/storage.go:15-27 | in every state of every run the key has been written at most once, exactly once if it exists, and a stored value is complete |
| `Bootstrap.BootstrapAgreement` | pkg/cluster/storage.go:15-56 | in every run of any number of servers, any two stamped servers, at any two times, have the same generate-if-missing files, equal to the stored ones |
| `Bootstrap.Write` | pkg/bootstrap/bootstrap.go:22-42 | it succeeds exactly when every named file can be read, and collects exactly their contents |
| `Bootstrap.Read` | pkg/bootstrap/bootstrap.go:44-71 | it succeeds exactly when every known field's file can be written, and then each has the given contents; files of no given field are untouched, even on failure |
| `Bootstrap.SaveThenLoad` | pkg/cluster/storage.go:15-56 | saving on one server and loading on another carries every file over, exactly when they can be read and written |
| `PasswordFiles.NextPasswords` | pkg/daemons/control/server.go:453-479 | every step or crash of any server keeps the invariant of the password files: before the key exists each is one to start from, afterwards a loaded one is the stored one but for the node's entry |
| `PasswordFiles.PasswordAgreement` | pkg/daemons/control/server.go:424-479 | in every run, a stamped server's password file is the stored one with the node's entry that its last agent token asks for; any two stamped servers, at any two times, have the same file if and only if their agent tokens ask for the same node's password |
| `PasswordFiles.RawAgentsAgree` | pkg/daemons/control/server.go:443-451 | with raw agent tokens: if and only if the agent tokens are equal |
| `PasswordFiles.AgreeOnEverything` | pkg/cluster/storage.go:15-56 | stamped servers last started with one agent token have the same files for every field, the password file included |
| `PasswordFiles.StartUpUsers` | pkg/daemons/control/server.go:337-370 | the start-up sequence meets the hypotheses of these results whenever its token gives passwords |
| `PasswordFiles.PasswordsMayDiffer` | pkg/daemons/control/server.go:443-479 | for any two raw agent tokens, some run from empty servers ends with two servers running and stamped, each with its own one as the node's password |
| `Learners.Manager.TrackLearnerProgress` | pkg/etcd/etcd.go:575-627 | the stored record and the removals after one look at a learner |
| `Learners.Manager.FirstReachable` | pkg/etcd/etcd.go:595-610 | the status is that of the first client URL that can be reached, and none only if no URL can |
| `Learners.FirstStatusMeaning` | pkg/etcd/etcd.go:595-610 | the same of the specification: an index if and only if some URL reports it and none before it can be reached |
| `Learners.EvictsExactly` | pkg/etcd/etcd.go:575-627 | a look evicts if and only if it could not promote the learner on record, more than a minute has passed since the time on record, and the first URL that can be reached, if any, reports no index above the recorded one |
| `Learners.WritesExactly` | pkg/etcd/etcd.go:575-627 | what a look that can write and does not evict records: the time, in whole seconds, exactly when it sees another learner or progress, and the index that is reported |
| `Learners.Manager.ManageLearners` | pkg/etcd/etcd.go:533-571 | over all ticks, the record is the fold of the looks and the removals are exactly the evictions that worked, in order and each once |
| `Learners.EvictionSafe` | pkg/etcd/etcd.go:533-658 | over every run with a clock that does not run backwards, whatever writes fail: an evicted learner was looked at more than a minute before, on times as stored; and all looks of the last minute saw it no higher than on record if and only if none of them failed to write what it saw |
| `Learners.EvictionOnRealClock` | pkg/etcd/etcd.go:617-624 | over every such run: on the real clock, the look that wrote the record was more than a minute before the eviction if it was on a whole second, and more than 59 seconds otherwise |
| `Learners.IndexNeverFalls` | pkg/etcd/etcd.go:604-608 | while one learner is on record its index never falls, whatever fails |
| `Learners.TruncationCosts` | pkg/etcd/etcd.go:617-624 | of two looks, of which the first sees progress at a given time, the second can evict within a minute of real time if and only if the first was not on a whole second |
| `Learners.FailedPutForgets` | pkg/etcd/etcd.go:626-658 | a concrete eviction eleven seconds after progress, because a write failed |
| `Snapshots.NameOrder` | pkg/etcd/etcd.go:732-732 | the name of an earlier time comes first if and only if the time is at most the later one cut to as many digits |
| `Snapshots.NamesOrdered` | pkg/etcd/etcd.go:732-732 | name order is time order for all times in such order |
| `Snapshots.OneLength` | pkg/etcd/etcd.go:732-732 | increasing times of one number of digits are in such order |
| `Snapshots.NamesDisordered` | pkg/etcd/etcd.go:732-732 | a concrete pair out of order and one in order, both with different numbers of digits |
| `Snapshots.SnapshotRetention` | pkg/etcd/etcd.go:784-804 | at most one snapshot is removed, the first in name order, and only above the retention; files that are no snapshots are left alone |
| `Snapshots.RetainOne` | pkg/etcd/etcd.go:784-804 | with retention one, of two snapshots the newer is removed exactly when the earlier time exceeds the cut later one |
| `Snapshots.RunSnapshots` | pkg/etcd/etcd.go:732-804 | over every run with failures, from any snapshots, more than the retention or not, the directory holds exactly the newest ones, as many as the count says, and all files that are no snapshots |
| `Snapshots.RetentionKept` | pkg/etcd/etcd.go:784-804 | while removals work the count grows up to the retention, and does not change from above it |
| `Snapshots.RetentionExactly` | pkg/etcd/etcd.go:784-804 | the count is within the retention if and only if it was at the start and no removal failed when the directory was full |
| `Snapshots.ExcessStays` | pkg/etcd/etcd.go:803-803 | the count never comes down again |
| `LoadBalancer.SortServers` | pkg/agent/loadbalancer/utility.go:31-49 | the distinct non-empty entries in order, and whether the one searched for is among them |
| `LoadBalancer.OrderIsCanonical` | pkg/agent/loadbalancer/servers.go:10-20 | sorted lists with the same entries are equal, so comparing lists compares sets |
| `LoadBalancer.Balancer.SetServers` | pkg/agent/loadbalancer/servers.go:9-34 | the servers become a duplicate-free permutation of the addresses and the original server, with the current server at the index; it changes anything exactly when the set of addresses differs and is not empty |
| `LoadBalancer.Balancer.NextServer` | pkg/agent/loadbalancer/servers.go:36-57 | an error without servers; otherwise the next server in the list, around, becomes the current one exactly when the current one is reported and there are others |
| `LoadBalancer.Balancer.ReportFailure` | pkg/agent/loadbalancer/servers.go:36-57 | any number of reports of one failure move the index once |
| `LoadBalancer.Balancer.DialContext` | pkg/agent/loadbalancer/loadbalancer.go:110-140 | undisturbed, it dials from the current server on in the order of the list, around, up to the first server that answers or the caller's giving up; if neither happens, every server was dialled exactly once and the state is restored; without servers it dials the empty address once |
| `LoadBalancer.RunSteps` | pkg/agent/loadbalancer/servers.go:9-57 | any interleaving of locked steps keeps the invariant and serves the addresses set last |
| `Tunnels.Proxy.Update` | pkg/agent/proxy/apiproxy.go:67-83 | without a proxied API server the addresses are the given ones; otherwise exactly the hosts of those that can be split, joined with the supervisor port |
| `Tunnels.Proxy.SetSupervisorPort` | pkg/agent/proxy/apiproxy.go:85-96 | every address that can be split gets the port, the others are dropped, in order |
| `Tunnels.OnPortMembers` | pkg/agent/proxy/apiproxy.go:85-96 | the result has exactly the joined hosts of addresses that can be split |
| `Tunnels.Agent.Setup` | pkg/agent/tunnel/tunnel.go:76-88 | after the initial connects the live tunnels are exactly those to the addresses given, or to their hosts on the supervisor port when the API server is proxied, and the fallback alone when that leaves none |
| `Tunnels.Agent.DisconnectOthers` | pkg/agent/tunnel/tunnel.go:134-140 | every other tunnel is cancelled, each once, and no kept one |
| `Tunnels.Agent.OnEvent` | pkg/agent/tunnel/tunnel.go:119-140 | after an event the live tunnels are exactly those to the addresses given, in the same sense, unless it names the supervisors in use while the API server is proxied, and then they stay; a kept address keeps its tunnel uncancelled, each dropped tunnel is cancelled once |
| `Tunnels.Agent.Watch` | pkg/agent/tunnel/tunnel.go:119-140 | after every event of every run the live tunnels are exactly those to the supervisors heard of so far, which are the addresses of that event in the same sense, a kept address keeps its tunnel uncancelled and each dropped tunnel is cancelled once; every tunnel ever started is live under one address or was cancelled once |
| `NodeHosts.Render` | pkg/node/controller.go:92-95 | in any order, the text written denotes exactly the map, one line for each host |
| `NodeHosts.Handler.ReadHosts` | pkg/node/controller.go:67-88 | the lines are read as the text denotes them, without the removed node, or found to say already what is wanted |
| `NodeHosts.LastCounts` | pkg/node/controller.go:67-88 | the lines say of a host what its last line says |
| `NodeHosts.LineExactly` | pkg/node/controller.go:71-77 | a line counts if and only if it has exactly two words, the address and the host in this order |
| `NodeHosts.SpacesSeparate` | pkg/node/controller.go:71-77 | any spaces and tabs between the two, and behind them, make no difference |
| `NodeHosts.FindInternalIP` | pkg/node/controller.go:48-53 | the first address of the internal kind, whatever stands before it, and nothing if there is none |
| `NodeHosts.WantedExactly` | pkg/node/controller.go:78-92 | an update is to change the node's own entry alone: to its first internal address, or to nothing when it is removed |
| `NodeHosts.Handler.UpdateHosts` | pkg/node/controller.go:40-110 | the text is left alone without an internal address, on failure or on a matching line, and otherwise denotes the updated map without repeats; the update has its wanted effect exactly when it removes, no line matches, or the last line for the host is the wanted one |
| `NodeHosts.EarlyReturnHarmless` | pkg/node/controller.go:78-85 | without repeated hosts the early return changes nothing about the meaning |
| `NodeHosts.EarlyReturnExactly` | pkg/node/controller.go:78-85 | leaving the text has the wanted effect if and only if some line for the host has the address and no later line is for the host |
| `NodeHosts.RepeatedHostGoesWrong` | pkg/node/controller.go:78-85 | a concrete text of two lines for which the early return is wrong |
| `NodeHosts.RunEvents` | pkg/node/controller.go:29-110 | over every run from text without repeated hosts, the text denotes the map after the same updates |
| `Tokens.ParseUndoesFormat` | pkg/clientaccess/token.go:50-52 | parsing a formatted token gives its parts back if and only if the user name has no colon |
| `Tokens.TokenTexts` | pkg/clientaccess/token.go:126-152 | tokens spelled out: with a hash, without one, and those that cannot be parsed |
| `Tokens.RawSecretWhole` | pkg/clientaccess/token.go:126-152 | a secret that does not start with the prefix is parsed as a password, whole |
| `Tokens.Passwd.EnsureUser` | pkg/passwd/passwd.go:71-108 | the user gets the role and a raw password as given; an empty one keeps what is there, or takes the random one; nobody else changes, and the file is marked exactly when an entry changed |
| `Tokens.GenUsers` | pkg/daemons/control/server.go:415-479 | the entries after a start, and that nothing is marked when no step has anything to change |
| `Tokens.TokenStripped` | pkg/passwd/passwd.go:71-76 | a full token is cut down to its secret for its own user |
| `Tokens.PasswordsAgree` | pkg/daemons/control/server.go:443-479 | without an agent token, a raw secret or a full server token around one gives node and server the same password, whatever was stored |
| `Tokens.OldFileMigrates` | pkg/daemons/control/server.go:415-422 | an old file with the node's entry alone: the server gets its password, the node keeps it, and all others are kept |
| `Tokens.StartSettles` | pkg/daemons/control/server.go:424-479 | a start whose token and agent token give passwords, and which without a token finds or draws a raw secret or a full server token, settles the server's entry and leaves the node's that the agent token asks for |
| `Tokens.SettledStart` | pkg/daemons/control/server.go:453-479 | from settled entries a start changes the node's entry at most, to one that no draw has a part in, and is idle if and only if that is there already |
| `Tokens.SecondStartIdle` | pkg/daemons/control/server.go:453-479 | under the hypotheses of `StartSettles`, a second start with the same token and agent token changes and marks nothing, whatever it draws |
| `Tokens.CommonTokensUsable` | pkg/passwd/passwd.go:71-76 | a raw secret, or a full server token around one, gives server and node passwords |
| `Tokens.RawAgentUsable` | pkg/daemons/control/server.go:443-451 | a raw agent token gives the node a password, itself |
| `Tokens.FreshStart` | pkg/daemons/control/server.go:424-441 | a first start without a token gives node and server one random password, and makes no other entries |
| `Tokens.ForeignTokenDiffers` | pkg/daemons/control/server.go:443-479 | for every stored file and draw, a full token in place of a secret gives node and server the same password if and only if it is a token of the server |

## Left out

- Running iptables and ipset, informers and listers, HTTP, TLS and websockets: foreign code, modelled by the contracts of `Kernel` and by arbitrary outcomes.
- SHA-256, base32, AES-GCM, JSON, CSV and time formats: codecs are taken to be inverse to each other, digests to be arbitrary functions.
- The beta NetworkPolicy path: a near-copy of the path modelled.
- IPv6 sets: the controller creates none.
- MatchExpressions selectors: the code uses MatchLabels only.
- Merging several IP blocks as a union: all blocks of a rule go into one set, and the policy's meaning is what `MergedMeaning` says of it; `MergedExactly` compares it with the union.
- The rest of the final teardown after its rule deletions: it flushes and deletes by prefix, which adds only easy members.
- The verdict of FORWARD and OUTPUT on packets that no current pod chain gets: it is what the rules of others say.
- A dial under interference: the index is read outside the lock, so only the locked steps are covered.
- Reading endpoints into addresses: a loop without choices.
- The managed-etcd and HTTP bootstrap paths, join and restore: they lean on etcd behaviour that is not shown.
- Command lines, certificates, flannel, containerd, generated clients and build scripts: plumbing.
- IpsetText.BuildIPSetRestore: is stated for tokens without spaces and newlines, because ipset has no others.
- PasswordFiles.PasswordAgreement: is stated for a token and agent tokens that give passwords, and without a token for initial files from which a start takes a raw secret or a full server token; other texts ask for an empty password, for which a start keeps the entry it finds, so the file then depends on earlier starts.
- Bootstrap.Cluster.EnsureUsers: has the password file as the table of its entries, without the order of its lines.
- NodeHosts.Handler.UpdateHosts: is stated for node names and addresses that are words, because the API admits no others.
- Compile.PolicyOps: asks once more whether the destination set exists before refreshing it, which the code does not; this only adds a way to abort.
