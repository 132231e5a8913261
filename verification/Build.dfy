/** Building the internal form of the network policies from the listers' contents. */
module Build {
  import opened Basics
  import opened Netfilter
  import opened IpBlocks
  import opened Policies

  /** The pod lister: the pods of a namespace that carry the labels. */
  function ListPods(pods: seq<Pod>, ns: string, wanted: Labels): (r: seq<Pod>)
    ensures forall pod :: pod in r <==> pod in pods && pod.namespace == ns && Selects(wanted, pod.labels)
  {
    if pods == [] then []
    else
      var front, last := pods[..|pods| - 1], pods[|pods| - 1];
      assert forall pod :: pod in pods <==> pod in front || pod == last;
      ListPods(front, ns, wanted) + if last.namespace == ns && Selects(wanted, last.labels) then [last] else []
  }

  function ListNamespaces(all: seq<Namespace>, wanted: Labels): (r: seq<Namespace>)
    ensures forall n :: n in r <==> n in all && Selects(wanted, n.labels)
  {
    if all == [] then []
    else
      var front, last := all[..|all| - 1], all[|all| - 1];
      assert forall n :: n in all <==> n in front || n == last;
      ListNamespaces(front, wanted) + if Selects(wanted, last.labels) then [last] else []
  }

  /** Exactly the pods that one peer selects. */
  method EvalPodPeer(cl: Cluster, ns: string, peer: Peer) returns (pods: seq<Pod>)
    ensures forall pod :: pod in pods <==> pod in cl.pods && PeerSelects(cl, ns, peer, pod)
  {
    pods := [];
    if peer.namespaceSelector.Some? {
      var namespaces := ListNamespaces(cl.namespaces, peer.namespaceSelector.value);
      var wanted := if peer.podSelector.Some? then peer.podSelector.value else map[];
      for i := 0 to |namespaces|
        invariant forall pod :: pod in pods <==>
                    && pod in cl.pods && Selects(wanted, pod.labels)
                    && exists n :: n in namespaces[..i] && n.name == pod.namespace
      {
        pods := pods + ListPods(cl.pods, namespaces[i].name, wanted);
        assert forall n :: n in namespaces[..i + 1] <==> n in namespaces[..i] || n == namespaces[i];
      }
      assert namespaces[..|namespaces|] == namespaces;
    } else if peer.podSelector.Some? {
      pods := ListPods(cl.pods, ns, peer.podSelector.value);
    }
  }

  /** Add the named ports of one pod to an index. */
  method GrabNamedPortFromPod(index: PortIndex, pod: Pod) returns (r: PortIndex)
    requires pod.ip.Some? && forall k :: k in index ==> index[k] != []
    ensures forall k, a :: Lists(r, k, a) <==> Lists(index, k, a) || Offers(pod, k, a)
    ensures forall k :: k in r ==> r[k] != []
  {
    r := index;
    for i := 0 to |pod.ports|
      invariant forall k, a: Addr :: Lists(r, k, a) <==>
                  Lists(index, k, a) ||
                    (pod.ip == Some(a) && ContainerPort(k.name, k.protocol, k.port) in pod.ports[..i])
      invariant forall k :: k in r ==> r[k] != []
    {
      var c := pod.ports[i];
      var key := PortKey(c.name, c.protocol, c.port);
      assert forall x :: x in pod.ports[..i + 1] <==> x in pod.ports[..i] || x == c;
      r := r[key := (if key in r then r[key] else []) + [pod.ip.value]];
    }
    assert pod.ports[..|pod.ports|] == pod.ports;
  }

  /** Index the named ports of the pods that have an address. */
  method IndexPods(pods: seq<Pod>) returns (index: PortIndex)
    ensures Indexes(index, iset pod | pod in pods)
  {
    index := map[];
    for i := 0 to |pods|
      invariant forall k, a :: Lists(index, k, a) <==> exists pod :: pod in pods[..i] && Offers(pod, k, a)
      invariant forall k :: k in index ==> index[k] != []
    {
      assert forall x :: x in pods[..i + 1] <==> x in pods[..i] || x == pods[i];
      if pods[i].ip.Some? {
        index := GrabNamedPortFromPod(index, pods[i]);
      }
    }
    assert pods[..|pods|] == pods;
  }

  /** All endpoints that one named port resolves to, in whatever order the index is walked. */
  method ResolveNamed(ps: PortSpec, index: PortIndex) returns (named: seq<EndPoints>)
    requires ps.port.Named?
    ensures forall ep :: ep in named <==> exists k :: NamedMatch(ps, index, k, ep)
  {
    named := [];
    var wanted := set k | k in index && k.name == ps.port.name && k.protocol == ps.protocol;
    var todo := wanted;
    while todo != {}
      invariant todo <= wanted
      invariant forall ep :: ep in named <==> exists k :: k !in todo && NamedMatch(ps, index, k, ep)
    {
      var k :| k in todo;
      var ep := EndPoints(index[k], k.protocol, k.port);
      assert NamedMatch(ps, index, k, ep);
      named := named + [ep];
      todo := todo - {k};
    }
  }

  method ProcessNetworkPolicyPorts(ports: seq<PortSpec>, index: PortIndex) returns (numeric: seq<PortMatch>,
                                   named: seq<EndPoints>)
    ensures NumericPorts(ports, numeric)
    ensures NamedPorts(ports, index, named)
  {
    numeric, named := [], [];
    for i := 0 to |ports|
      invariant NumericPorts(ports[..i], numeric)
      invariant NamedPorts(ports[..i], index, named)
    {
      var ps := ports[i];
      assert forall x :: x in ports[..i + 1] <==> x in ports[..i] || x == ps;
      ghost var before := numeric;
      match ps.port {
        case AnyPort =>
          numeric := numeric + [PortMatch(ps.protocol, "")];
        case Number(n) =>
          numeric := numeric + [PortMatch(ps.protocol, n)];
        case Named(_) =>
          var more := ResolveNamed(ps, index);
          named := named + more;
      }
      assert forall m :: m in numeric <==> m in before || NumericMatch(ps, m);
    }
    assert ports[..|ports|] == ports;
  }

  /** The pods and blocks of the peers of one rule. */
  method EvalPeers(cl: Cluster, ns: string, peers: seq<Peer>) returns (pods: seq<Pod>, blocks: seq<Entry>)
    ensures forall pod :: pod in pods <==> IsPeer(cl, ns, peers, pod)
    ensures blocks == PeerBlocks(peers)
  {
    pods, blocks := [], [];
    for i := 0 to |peers|
      invariant forall pod :: pod in pods <==> IsPeer(cl, ns, peers[..i], pod)
      invariant blocks == PeerBlocks(peers[..i])
    {
      var peer := peers[i];
      assert forall x :: x in peers[..i + 1] <==> x in peers[..i] || x == peer;
      assert peers[..i + 1][..i] == peers[..i];
      var more := EvalPodPeer(cl, ns, peer);
      pods := pods + more;
      if peer.podSelector.None? && peer.namespaceSelector.None? && peer.ipBlock.Some? {
        var entries := EvalIPBlockPeer(peer.ipBlock.value);
        blocks := blocks + entries;
      }
    }
    assert peers[..|peers|] == peers;
  }

  /** The addresses of the pods that have one. */
  method AddressesOf(pods: seq<Pod>) returns (ips: seq<Addr>)
    ensures forall a :: a in ips <==> exists pod :: pod in pods && pod.ip == Some(a)
  {
    ips := [];
    for i := 0 to |pods|
      invariant forall a :: a in ips <==> exists pod :: pod in pods[..i] && pod.ip == Some(a)
    {
      assert forall x :: x in pods[..i + 1] <==> x in pods[..i] || x == pods[i];
      if pods[i].ip.Some? {
        ips := ips + [pods[i].ip.value];
      }
    }
    assert pods[..|pods|] == pods;
  }

  /** One rule; `targetIndex` holds the named ports of the policy's own pods. */
  method BuildRule(cl: Cluster, pol: Policy, dir: Direction, spec: RuleSpec,
                   targetIndex: PortIndex) returns (r: RuleInfo)
    requires Indexes(targetIndex, iset pod | IsTarget(cl, pol, pod))
    ensures Represents(cl, pol, dir, spec, r)
  {
    var pods, blocks := EvalPeers(cl, pol.namespace, spec.peers);
    var ips := AddressesOf(pods);
    var index := targetIndex;
    if dir == Egress {
      index := IndexPods(pods);
      assert (iset pod | pod in pods) == Scope(cl, pol, dir, spec);
    }
    var ports, named := [], [];
    if spec.ports != [] {
      ports, named := ProcessNetworkPolicyPorts(spec.ports, index);
    }
    r := RuleInfo(spec.ports == [], ports, named, spec.peers == [], ips, blocks);
    assert Indexes(index, Scope(cl, pol, dir, spec)) && NamedPorts(spec.ports, index, named);
  }

  method BuildRules(cl: Cluster, pol: Policy, dir: Direction, targetIndex: PortIndex) returns (rules: seq<RuleInfo>)
    requires Indexes(targetIndex, iset pod | IsTarget(cl, pol, pod))
    ensures |rules| == |RulesOf(pol, dir)|
    ensures forall i :: 0 <= i < |rules| ==> Represents(cl, pol, dir, RulesOf(pol, dir)[i], rules[i])
  {
    rules := [];
    var specs := RulesOf(pol, dir);
    for i := 0 to |specs|
      invariant |rules| == i
      invariant forall j :: 0 <= j < i ==> Represents(cl, pol, dir, specs[j], rules[j])
    {
      var r := BuildRule(cl, pol, dir, specs[i], targetIndex);
      rules := rules + [r];
    }
  }

  /** The two policy-type flags, following the explicit list or the rule lists that are present. */
  method PolicyTypes(pol: Policy) returns (ingress: bool, egress: bool)
    ensures ingress <==> HasType(pol, Ingress)
    ensures egress <==> HasType(pol, Egress)
  {
    ingress, egress := false, false;
    if |pol.types| > 0 {
      for i := 0 to |pol.types|
        invariant ingress <==> Ingress in pol.types[..i]
        invariant egress <==> Egress in pol.types[..i]
      {
        if pol.types[i] == Ingress {
          ingress := true;
        }
        if pol.types[i] == Egress {
          egress := true;
        }
      }
      assert pol.types[..|pol.types|] == pol.types;
      assert pol.types[0] == Ingress || pol.types[0] == Egress;
    } else if pol.egress.Some? && pol.ingress.Some? {
      ingress, egress := true, true;
    } else if pol.egress.Some? {
      egress := true;
    } else {
      ingress := true;
    }
  }

  method BuildPolicy(cl: Cluster, pol: Policy) returns (info: PolicyInfo)
    ensures RepresentsPolicy(cl, pol, info)
    ensures Listed(cl, pol, Ingress, pol.ingress, info.ingress) && Listed(cl, pol, Egress, pol.egress, info.egress)
  {
    var ingressType, egressType := PolicyTypes(pol);
    var pods := ListPods(cl.pods, pol.namespace, pol.podSelector);
    assert forall pod :: pod in pods <==> IsTarget(cl, pol, pod);
    var ips := AddressesOf(pods);
    var index := IndexPods(pods);
    assert (iset pod | pod in pods) == iset pod | IsTarget(cl, pol, pod);
    var ingress := BuildRules(cl, pol, Ingress, index);
    var egress := BuildRules(cl, pol, Egress, index);
    info := PolicyInfo(pol.namespace, pol.name, ips, ingressType, egressType, ingress, egress);
    forall dir
      ensures |InfoRules(info, dir)| == |RulesOf(pol, dir)|
      ensures forall i :: 0 <= i < |RulesOf(pol, dir)| ==>
                Represents(cl, pol, dir, RulesOf(pol, dir)[i], InfoRules(info, dir)[i])
    {
      match dir
      case Ingress => assert InfoRules(info, dir) == ingress;
      case Egress => assert InfoRules(info, dir) == egress;
    }
  }

  /** Every policy, in the order of the lister. */
  method BuildNetworkPoliciesInfo(cl: Cluster) returns (infos: seq<PolicyInfo>)
    ensures |infos| == |cl.policies|
    ensures forall i :: 0 <= i < |infos| ==> RepresentsPolicy(cl, cl.policies[i], infos[i])
  {
    infos := [];
    for i := 0 to |cl.policies|
      invariant |infos| == i
      invariant forall j :: 0 <= j < i ==> RepresentsPolicy(cl, cl.policies[j], infos[j])
    {
      var info := BuildPolicy(cl, cl.policies[i]);
      infos := infos + [info];
    }
  }
}
