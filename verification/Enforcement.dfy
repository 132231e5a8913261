/** From the policies of the cluster to the verdict of a pod's chain. */
module Enforcement {
  import opened Basics
  import opened Netfilter
  import opened Kernel
  import opened Naming
  import opened Policies
  import opened Compile
  import opened CompileSets
  import opened Firewall
  import opened PodChains
  import opened Sync
  import opened SyncPolicies
  import opened SyncPods

  predicate Exposes(pod: Pod, name: string, protocol: string) {
    pod.ip.Some? && exists c :: c in pod.ports && c.name == name && c.protocol == protocol
  }

  /** All ports of the rule are names, and no pod in scope exposes any of them. */
  ghost predicate Unresolved(cl: Cluster, pol: Policy, dir: Direction, spec: RuleSpec) {
    && spec.ports != []
    && forall ps :: ps in spec.ports ==>
         ps.port.Named? && forall pod :: pod in Scope(cl, pol, dir, spec) ==> !Exposes(pod, ps.port.name, ps.protocol)
  }

  /** Such a rule lets every port through between the policy's pods and the selected peers. */
  ghost predicate SpecLeaks(cl: Cluster, pol: Policy, dir: Direction, spec: RuleSpec, p: Packet) {
    && Unresolved(cl, pol, dir, spec)
    && TargetAddr(cl, pol, TargetEnd(dir, p)) && PeerAddr(cl, pol.namespace, spec.peers, PeerEnd(dir, p))
  }

  ghost predicate PolicyLeaks(cl: Cluster, pol: Policy, p: Packet) {
    exists dir, spec :: spec in RulesOf(pol, dir) && SpecLeaks(cl, pol, dir, spec, p)
  }

  /** What a policy lets through: what it allows, and what its unresolved rules leak. */
  ghost predicate PolicyPasses(cl: Cluster, pol: Policy, p: Packet) {
    PolicyAllows(cl, pol, p) || PolicyLeaks(cl, pol, p)
  }

  // A policy for the pods "a" that lets the pods "b" in on the port "http", which nobody exposes.

  const HTTP_FROM_B := RuleSpec([Peer(Some(map["role" := "b"]), None, None)], [PortSpec("tcp", Named("http"))])
  const HTTP_TO_A := Policy("ns", "web", map["role" := "a"], [Ingress], Some([HTTP_FROM_B]), None)
  const POD_A := Pod("ns", "a", Some(1), "node", map["role" := "a"], [])
  const POD_B := Pod("ns", "b", Some(2), "node", map["role" := "b"], [])

  /** Every packet from the one to the other passes, on any port, and none is allowed. */
  lemma PortNobodyExposes(p: Packet)
    requires p.src == 2 && p.dst == 1
    ensures var cl := Cluster([POD_A, POD_B], [], [HTTP_TO_A]);
            && HTTP_FROM_B in RulesOf(HTTP_TO_A, Ingress)
            && SpecLeaks(cl, HTTP_TO_A, Ingress, HTTP_FROM_B, p) && !SpecAllows(cl, HTTP_TO_A, Ingress, HTTP_FROM_B, p)
            && PolicyPasses(cl, HTTP_TO_A, p) && !PolicyAllows(cl, HTTP_TO_A, p)
  {
    var cl := Cluster([POD_A, POD_B], [], [HTTP_TO_A]);
    var peer := HTTP_FROM_B.peers[0];
    assert POD_A in cl.pods && POD_B in cl.pods && peer in HTTP_FROM_B.peers;
    assert IsTarget(cl, HTTP_TO_A, POD_A);
    assert PeerSelects(cl, "ns", peer, POD_B);
    assert IsPeer(cl, "ns", HTTP_FROM_B.peers, POD_B);
    assert forall pod :: pod in cl.pods ==> pod.ports == [];
    assert forall dir, spec :: spec in RulesOf(HTTP_TO_A, dir) ==> dir == Ingress && spec == HTTP_FROM_B;
    assert forall q: Pod, k, a :: q in cl.pods ==> !Offers(q, k, a);
    assert !PortAllowed(HTTP_FROM_B.ports, Scope(cl, HTTP_TO_A, Ingress, HTTP_FROM_B), p);
  }

  lemma NamedResolves(cl: Cluster, pol: Policy, dir: Direction, spec: RuleSpec, r: RuleInfo, index: PortIndex,
                      ps: PortSpec, pod: Pod)
    requires Indexes(index, Scope(cl, pol, dir, spec)) && NamedPorts(spec.ports, index, r.namedPorts)
    requires ps in spec.ports && ps.port.Named? && pod in Scope(cl, pol, dir, spec)
    requires Exposes(pod, ps.port.name, ps.protocol)
    ensures r.namedPorts != []
  {
    var c :| c in pod.ports && c.name == ps.port.name && c.protocol == ps.protocol;
    var k := PortKey(c.name, c.protocol, c.port);
    assert Offers(pod, k, pod.ip.value);
    assert Lists(index, k, pod.ip.value);
    var ep := EndPoints(index[k], k.protocol, k.port);
    assert NamedMatch(ps, index, k, ep);
    assert ep in r.namedPorts;
  }

  lemma NamedExposed(cl: Cluster, pol: Policy, dir: Direction, spec: RuleSpec, r: RuleInfo, index: PortIndex)
    requires Indexes(index, Scope(cl, pol, dir, spec)) && NamedPorts(spec.ports, index, r.namedPorts)
    requires r.namedPorts != []
    ensures exists ps, pod :: ps in spec.ports && ps.port.Named? && pod in Scope(cl, pol, dir, spec) &&
              Exposes(pod, ps.port.name, ps.protocol)
  {
    HeadIsMember(r.namedPorts);
    var ep := r.namedPorts[0];
    var ps, k :| ps in spec.ports && NamedMatch(ps, index, k, ep);
    assert Lists(index, k, index[k][0]);
    var pod :| pod in Scope(cl, pol, dir, spec) && Offers(pod, k, index[k][0]);
    assert Exposes(pod, ps.port.name, ps.protocol);
  }

  lemma NoNumeric(ports: seq<PortSpec>, matches: seq<PortMatch>, ps: PortSpec)
    requires NumericPorts(ports, matches) && matches == [] && ps in ports
    ensures ps.port.Named?
  {
    var port := match ps.port case Number(n) => n case _ => "";
    assert PortMatch(ps.protocol, port) !in matches;
  }

  /** The compiler's length tests are passed over exactly by unresolved rules. */
  lemma VacuousUnresolved(cl: Cluster, pol: Policy, dir: Direction, spec: RuleSpec, r: RuleInfo)
    requires Represents(cl, pol, dir, spec, r)
    ensures Vacuous(r) <==> Unresolved(cl, pol, dir, spec)
  {
    var scope := Scope(cl, pol, dir, spec);
    var index :| Indexes(index, scope) && NamedPorts(spec.ports, index, r.namedPorts);
    if Vacuous(r) {
      forall ps | ps in spec.ports
        ensures ps.port.Named? && forall pod :: pod in scope ==> !Exposes(pod, ps.port.name, ps.protocol)
      {
        NoNumeric(spec.ports, r.ports, ps);
        forall pod | pod in scope && Exposes(pod, ps.port.name, ps.protocol)
          ensures false
        {
          NamedResolves(cl, pol, dir, spec, r, index, ps, pod);
        }
      }
    }
    if Unresolved(cl, pol, dir, spec) {
      HeadIsMember(r.ports);
      if r.namedPorts != [] {
        NamedExposed(cl, pol, dir, spec, r, index);
      }
    }
  }

  lemma RuleMeaning(cl: Cluster, pol: Policy, dir: Direction, spec: RuleSpec, targets: seq<Addr>, r: RuleInfo,
                    p: Packet)
    requires Represents(cl, pol, dir, spec, r) && ValidSpec(spec) && ValidCluster(cl)
    requires forall a :: a in targets <==> TargetAddr(cl, pol, a)
    ensures InfoAllows(targets, dir, r, p) || Leaks(targets, dir, r, p) <==>
            SpecAllows(cl, pol, dir, spec, p) || SpecLeaks(cl, pol, dir, spec, p)
  {
    RulePreserved(cl, pol, dir, spec, targets, r, p);
    VacuousUnresolved(cl, pol, dir, spec, r);
  }

  ghost predicate ValidPolicy(pol: Policy) {
    forall dir, spec :: spec in RulesOf(pol, dir) ==> ValidSpec(spec)
  }

  /** A compiled policy decides as the policy does. */
  lemma PolicyMeaning(cl: Cluster, pol: Policy, info: PolicyInfo, p: Packet)
    requires RepresentsPolicy(cl, pol, info) && ValidPolicy(pol) && ValidCluster(cl)
    ensures (exists dir, i :: Decided(info, dir, i, p)) <==> PolicyPasses(cl, pol, p)
  {
    hide InfoAllows, Leaks, SpecAllows, SpecLeaks, Represents, ValidSpec, ValidCluster, TargetAddr;
    forall dir, i: nat | i < |RulesOf(pol, dir)|
      ensures Decided(info, dir, i, p) <==>
              SpecAllows(cl, pol, dir, RulesOf(pol, dir)[i], p) || SpecLeaks(cl, pol, dir, RulesOf(pol, dir)[i], p)
    {
      var spec := RulesOf(pol, dir)[i];
      assert spec in RulesOf(pol, dir);
      RuleMeaning(cl, pol, dir, spec, info.targets, InfoRules(info, dir)[i], p);
    }
    if dir, i: nat :| Decided(info, dir, i, p) {
      assert RulesOf(pol, dir)[i] in RulesOf(pol, dir);
    }
    if dir, spec :| spec in RulesOf(pol, dir)
                    && (SpecAllows(cl, pol, dir, spec, p) || SpecLeaks(cl, pol, dir, spec, p)) {
      var i :| 0 <= i < |RulesOf(pol, dir)| && RulesOf(pol, dir)[i] == spec;
      assert Decided(info, dir, i, p);
    }
  }

  lemma PolicyWellFormed(cl: Cluster, pol: Policy, info: PolicyInfo)
    requires RepresentsPolicy(cl, pol, info) && ValidPolicy(pol)
    ensures WellFormedPolicy(info)
  {
    hide Represents, WellFormed, TargetAddr, ValidSpec;
    forall dir, i | 0 <= i < |InfoRules(info, dir)|
      ensures WellFormed(info.targets, dir, InfoRules(info, dir)[i])
    {
      var spec := RulesOf(pol, dir)[i];
      assert spec in RulesOf(pol, dir);
      RuleWellFormed(cl, pol, dir, spec, info.targets, InfoRules(info, dir)[i]);
    }
  }

  lemma AdmittedWritten(before: Chains, now: Chains, c: string, ops: seq<Op>, p: Packet, sets: Sets)
    requires Written(before, now, c, ops)
    ensures Admitted(ops, p, sets) <==> exists r :: r in now[c] && Matches(r, p, sets)
  {
    hide Matches;
    if op :| op in ops && op.AppendOp? && Matches(op.rule, p, sets) {
      assert AppendOp(op.rule) == op;
    }
    if r :| r in now[c] && Matches(r, p, sets) {
      assert AppendOp(r) in ops;
    }
  }

  /** The chain of a policy that has been written accepts what the policy lets through. */
  lemma ChainMeaning(d: Digest, cl: Cluster, pol: Policy, info: PolicyInfo, version: string, before: Chains, st: State,
                     p: Packet)
    requires RepresentsPolicy(cl, pol, info) && ValidPolicy(pol) && ValidCluster(cl)
    requires Written(before, st.chains, PolicyChainOf(d, info, version), PolicyOps(d, info))
    requires Realised(PolicyOps(d, info), st.sets)
    ensures PolicyAccepts(d, info, version, st, p) <==> PolicyPasses(cl, pol, p)
  {
    hide PolicyOps, Decided, PolicyPasses, RepresentsPolicy, ValidPolicy, ValidCluster, Matches, PolicyChainOf,
         Realised, WellFormedPolicy;
    PolicyWellFormed(cl, pol, info);
    PolicyMeaning(cl, pol, info, p);
    PolicyCompiled(d, info, p, st.sets);
    AdmittedWritten(before, st.chains, PolicyChainOf(d, info, version), PolicyOps(d, info), p, st.sets);
  }

  ghost predicate RepresentsAll(cl: Cluster, infos: seq<PolicyInfo>) {
    |infos| == |cl.policies| && forall i :: 0 <= i < |infos| ==> RepresentsPolicy(cl, cl.policies[i], infos[i])
  }

  ghost predicate ValidInput(cl: Cluster) {
    ValidCluster(cl) && forall pol :: pol in cl.policies ==> ValidPolicy(pol)
  }

  /** The table and the sets are as a complete sync leaves them. */
  ghost predicate InPlace(d: Digest, st: State, before: Chains, infos: seq<PolicyInfo>, version: string) {
    AllWritten(d, before, st.chains, infos, version) && Realised(AllOps(d, infos), st.sets)
  }

  ghost predicate SomePolicyPasses(cl: Cluster, ip: Addr, p: Packet) {
    exists pol :: pol in cl.policies && TargetAddr(cl, pol, ip) && PolicyPasses(cl, pol, p)
  }

  /** The verdict that is due to a packet in the chain of the pod with this address. */
  ghost function Due(cl: Cluster, ip: Addr, ingress: bool, p: Packet): Verdict {
    if p.established || (ingress && p.fromLocal && p.dst == ip) || SomePolicyPasses(cl, ip, p) then Accepted
      else Rejected
  }

  lemma ReadyToRun(d: Digest, st: State, before: Chains, infos: seq<PolicyInfo>, version: string)
    requires ValidDigest(d) && InPlace(d, st, before, infos, version)
    ensures PolicyChainsReady(d, infos, version, st)
    ensures forall i :: 0 <= i < |infos| ==> Realised(PolicyOps(d, infos[i]), st.sets)
  {
    hide PolicyOps, PolicyChainOf;
    forall i | 0 <= i < |infos|
      ensures PolicyChainOf(d, infos[i], version) in st.chains
      ensures AcceptChain(st.chains[PolicyChainOf(d, infos[i], version)])
      ensures Realised(PolicyOps(d, infos[i]), st.sets)
    {
      var ops := PolicyOps(d, infos[i]);
      assert Written(before, st.chains, PolicyChainOf(d, infos[i], version), ops);
      AllOpsContain(d, infos, i);
      PolicyTidy(d, infos[i]);
      TidyEach(ops);
      forall r | AppendOp(r) in ops
        ensures r.target == Accept
      {
        assert TidyOp(AppendOp(r), Declared(ops));
      }
    }
  }

  /**
   The verdict of a pod's chain, for every packet: accepted when it belongs to an established
   connection, comes from the node itself to an ingress pod, or passes one of the cluster's policies
   that target the pod; rejected otherwise.
   */
  lemma PodVerdict(d: Digest, cl: Cluster, infos: seq<PolicyInfo>, version: string, before: Chains, st: State,
                   pod: PodInfo, ingress: bool, p: Packet, depth: nat)
    requires ValidDigest(d) && RepresentsAll(cl, infos) && ValidInput(cl) && InPlace(d, st, before, infos, version)
    requires depth > 0
    ensures Run(NormalForm(pod, Jumps(d, infos, version, pod.ip), ingress), st, p, depth) == Due(cl, pod.ip, ingress, p)
  {
    hide Realised, PolicyOps, Written, PolicyPasses, PolicyAccepts, Run, NormalForm, Jumps, PolicyChainOf,
         PolicyChainsReady, ValidCluster, ValidPolicy;
    ReadyToRun(d, st, before, infos, version);
    NormalFormVerdict(d, infos, version, pod, ingress, st, p, depth);
    forall i | 0 <= i < |infos|
      ensures PolicyAccepts(d, infos[i], version, st, p) <==> PolicyPasses(cl, cl.policies[i], p)
      ensures pod.ip in infos[i].targets <==> TargetAddr(cl, cl.policies[i], pod.ip)
    {
      assert RepresentsPolicy(cl, cl.policies[i], infos[i]) && cl.policies[i] in cl.policies;
      ChainMeaning(d, cl, cl.policies[i], infos[i], version, before, st, p);
    }
    hide TargetAddr, RepresentsPolicy;
    if pol :| pol in cl.policies && TargetAddr(cl, pol, pod.ip) && PolicyPasses(cl, pol, p) {
      var i :| 0 <= i < |cl.policies| && cl.policies[i] == pol;
    }
    if i :| 0 <= i < |infos| && pod.ip in infos[i].targets && PolicyAccepts(d, infos[i], version, st, p) {
      assert cl.policies[i] in cl.policies;
    }
  }

  ghost predicate Isolates(cl: Cluster, nodeIP: string, dir: Direction, ip: Addr, pod: Pod, pol: Policy) {
    && pod.hostIP == nodeIP && pod.ip == Some(ip) && pol.namespace == pod.namespace
    && TargetAddr(cl, pol, ip) && HasType(pol, dir)
  }

  /** A pod of this node has this address, and a policy of its namespace isolates it in this direction. */
  ghost predicate Isolated(cl: Cluster, nodeIP: string, dir: Direction, ip: Addr) {
    exists pod, pol :: pod in cl.pods && pol in cl.policies && Isolates(cl, nodeIP, dir, ip, pod, pol)
  }

  ghost function VerdictAt(d: Digest, st: State, pods: map<Addr, PodInfo>, ip: Addr, version: string, p: Packet,
                           depth: nat): Option<Verdict>
    requires ip in pods
  {
    var c := ChainAt(d, pods, ip, version);
    if c in st.chains then Some(Run(st.chains[c], st, p, depth)) else None
  }

  /** The chains of all the pods give every packet the verdict due to it. */
  ghost predicate Enforced(d: Digest, st: State, cl: Cluster, ins: map<Addr, PodInfo>, outs: map<Addr, PodInfo>,
                           version: string) {
    && (forall ip, p, depth: nat :: ip in ins && depth > 0 ==>
          VerdictAt(d, st, ins, ip, version, p, depth) == Some(Due(cl, ip, true, p)))
    && (forall ip, p, depth: nat :: ip in outs && depth > 0 ==>
          VerdictAt(d, st, outs, ip, version, p, depth) == Some(Due(cl, ip, ip in ins && ins[ip] == outs[ip], p)))
  }
}
