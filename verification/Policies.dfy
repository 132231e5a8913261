/**
 NetworkPolicy objects, the cluster they select from, and what they mean: which packets a policy
 allows. The internal form that the agent builds from them is here too, with the relation that
 ties the two together.
 */
module Policies {
  import opened Basics
  import opened Netfilter
  import opened IpBlocks
  import opened BlockUnion

  type Labels = map<string, string>

  datatype ContainerPort = ContainerPort(name: string, protocol: string, port: string)

  datatype Pod = Pod(namespace: string, name: string, ip: Option<Addr>, hostIP: string,
                     labels: Labels, ports: seq<ContainerPort>)

  datatype Namespace = Namespace(name: string, labels: Labels)

  datatype Peer = Peer(podSelector: Option<Labels>, namespaceSelector: Option<Labels>, ipBlock: Option<IpBlock>)

  datatype PortRef = AnyPort | Number(number: string) | Named(name: string)

  datatype PortSpec = PortSpec(protocol: string, port: PortRef)

  /** An ingress rule (peers are sources) or an egress rule (peers are destinations). */
  datatype RuleSpec = RuleSpec(peers: seq<Peer>, ports: seq<PortSpec>)

  datatype Direction = Ingress | Egress

  datatype Policy = Policy(namespace: string, name: string, podSelector: Labels, types: seq<Direction>,
                           ingress: Option<seq<RuleSpec>>, egress: Option<seq<RuleSpec>>)

  datatype Cluster = Cluster(pods: seq<Pod>, namespaces: seq<Namespace>, policies: seq<Policy>)

  /** MatchLabels: every wanted label is present with that value. */
  predicate Selects(wanted: Labels, labels: Labels) {
    forall k :: k in wanted ==> k in labels && labels[k] == wanted[k]
  }

  predicate PeerSelects(cl: Cluster, ns: string, peer: Peer, pod: Pod) {
    match peer.namespaceSelector
    case Some(wanted) =>
      && (exists n :: n in cl.namespaces && n.name == pod.namespace && Selects(wanted, n.labels))
      && Selects(if peer.podSelector.Some? then peer.podSelector.value else map[], pod.labels)
    case None =>
      peer.podSelector.Some? && pod.namespace == ns && Selects(peer.podSelector.value, pod.labels)
  }

  /**
   A namespace selector selects among the namespaces and a pod selector among the pods of the policy's own;
   both together select what the one and, in the pod's own namespace, the other do. A peer with neither
   selects no pod, and an empty selector selects all there is.
   */
  lemma PeerSelectors(cl: Cluster, ns: string, pods: Labels, namespaces: Labels, block: Option<IpBlock>, pod: Pod)
    ensures PeerSelects(cl, ns, Peer(Some(pods), Some(namespaces), block), pod) <==>
            && PeerSelects(cl, ns, Peer(None, Some(namespaces), block), pod)
            && PeerSelects(cl, pod.namespace, Peer(Some(pods), None, block), pod)
    ensures PeerSelects(cl, ns, Peer(Some(pods), None, block), pod) ==> pod.namespace == ns
    ensures !PeerSelects(cl, ns, Peer(None, None, block), pod)
    ensures PeerSelects(cl, ns, Peer(Some(map[]), None, block), pod) <==> pod.namespace == ns
    ensures PeerSelects(cl, ns, Peer(None, Some(map[]), block), pod) <==>
            exists n :: n in cl.namespaces && n.name == pod.namespace
  {
  }

  /** Is `pod` selected by one of the peers? */
  predicate IsPeer(cl: Cluster, ns: string, peers: seq<Peer>, pod: Pod) {
    pod in cl.pods && exists peer :: peer in peers && PeerSelects(cl, ns, peer, pod)
  }

  predicate IsTarget(cl: Cluster, pol: Policy, pod: Pod) {
    pod in cl.pods && pod.namespace == pol.namespace && Selects(pol.podSelector, pod.labels)
  }

  /** The blocks of all pure IPBlock peers of a rule, in order. */
  function BlocksOf(peers: seq<Peer>): seq<IpBlock> {
    if peers == [] then []
    else
      var peer := peers[|peers| - 1];
      BlocksOf(peers[..|peers| - 1]) +
      if peer.podSelector.None? && peer.namespaceSelector.None? && peer.ipBlock.Some? then [peer.ipBlock.value] else []
  }

  /** A block holds the address and beats every exception of any block that holds it too. */
  ghost predicate BlocksAdmit(blocks: seq<IpBlock>, a: Addr) {
    ValidBlocks(blocks) && SomeAdmits(blocks, a)
  }

  /** The entries that all these blocks put into the one set they share. */
  function PeerBlocks(peers: seq<Peer>): seq<Entry> {
    if peers == [] then []
    else
      var peer := peers[|peers| - 1];
      PeerBlocks(peers[..|peers| - 1]) +
      if peer.podSelector.None? && peer.namespaceSelector.None? && peer.ipBlock.Some?
        then BlockEntries(peer.ipBlock.value) else []
  }

  predicate InBlocks(entries: seq<Entry>, a: Addr) {
    Storable(entries) && InSet(HashNet(Loaded(entries)), a)
  }

  ghost predicate TargetAddr(cl: Cluster, pol: Policy, a: Addr) {
    exists pod :: IsTarget(cl, pol, pod) && pod.ip == Some(a)
  }

  ghost predicate PeerAddr(cl: Cluster, ns: string, peers: seq<Peer>, a: Addr) {
    exists pod :: IsPeer(cl, ns, peers, pod) && pod.ip == Some(a)
  }

  datatype PortKey = PortKey(name: string, protocol: string, port: string)

  predicate Offers(pod: Pod, k: PortKey, a: Addr) {
    pod.ip == Some(a) && ContainerPort(k.name, k.protocol, k.port) in pod.ports
  }

  /** Does a pod in scope at the packet's destination expose the packet's port under this name? */
  ghost predicate NamedPortAt(scope: iset<Pod>, name: string, p: Packet) {
    exists pod :: pod in scope && Offers(pod, PortKey(name, p.proto, p.dport), p.dst)
  }

  ghost predicate PortAllowed(ports: seq<PortSpec>, scope: iset<Pod>, p: Packet) {
    || ports == []
    || exists ps :: ps in ports && ps.protocol == p.proto &&
         match ps.port
         case AnyPort => true
         case Number(n) => n == p.dport
         case Named(name) => NamedPortAt(scope, name, p)
  }

  /** The pods whose named ports a rule may refer to. */
  ghost function Scope(cl: Cluster, pol: Policy, dir: Direction, spec: RuleSpec): iset<Pod> {
    match dir
    case Ingress => iset pod | IsTarget(cl, pol, pod)
    case Egress => iset pod | IsPeer(cl, pol.namespace, spec.peers, pod)
  }

  /** The end of the packet that the policy's pods are at, and the end that the peers are at. */
  function TargetEnd(dir: Direction, p: Packet): Addr {
    match dir case Ingress => p.dst case Egress => p.src
  }

  function PeerEnd(dir: Direction, p: Packet): Addr {
    match dir case Ingress => p.src case Egress => p.dst
  }

  /** The meaning of one rule of a policy. */
  ghost predicate SpecAllows(cl: Cluster, pol: Policy, dir: Direction, spec: RuleSpec, p: Packet) {
    && TargetAddr(cl, pol, TargetEnd(dir, p))
    && (|| spec.peers == []
        || PeerAddr(cl, pol.namespace, spec.peers, PeerEnd(dir, p))
        || BlocksAdmit(BlocksOf(spec.peers), PeerEnd(dir, p)))
    && PortAllowed(spec.ports, Scope(cl, pol, dir, spec), p)
  }

  function RulesOf(pol: Policy, dir: Direction): seq<RuleSpec> {
    var rules := match dir case Ingress => pol.ingress case Egress => pol.egress;
    if rules.Some? then rules.value else []
  }

  /** The meaning of a policy: one of its rules allows the packet. */
  ghost predicate PolicyAllows(cl: Cluster, pol: Policy, p: Packet) {
    exists dir, spec :: spec in RulesOf(pol, dir) && SpecAllows(cl, pol, dir, spec, p)
  }

  ghost predicate SomeAllows(cl: Cluster, pol: Policy, dir: Direction, specs: Option<seq<RuleSpec>>, p: Packet) {
    specs.Some? && exists i :: 0 <= i < |specs.value| && SpecAllows(cl, pol, dir, specs.value[i], p)
  }

  /** Every rule of both lists counts, and nothing else does. */
  lemma PolicyAllowsExactly(cl: Cluster, pol: Policy, p: Packet)
    ensures PolicyAllows(cl, pol, p) <==>
            SomeAllows(cl, pol, Ingress, pol.ingress, p) || SomeAllows(cl, pol, Egress, pol.egress, p)
  {
    hide SpecAllows;
    if dir, spec :| spec in RulesOf(pol, dir) && SpecAllows(cl, pol, dir, spec, p) {
      var rules := if dir == Ingress then pol.ingress else pol.egress;
      var i :| 0 <= i < |rules.value| && rules.value[i] == spec;
    }
    if pol.ingress.Some? {
      assert forall i :: 0 <= i < |pol.ingress.value| ==> pol.ingress.value[i] in RulesOf(pol, Ingress);
    }
    if pol.egress.Some? {
      assert forall i :: 0 <= i < |pol.egress.value| ==> pol.egress.value[i] in RulesOf(pol, Egress);
    }
  }

  // The internal form.

  datatype PortMatch = PortMatch(protocol: string, port: string)  // an empty port matches every port

  datatype EndPoints = EndPoints(ips: seq<Addr>, protocol: string, port: string)

  datatype RuleInfo = RuleInfo(matchAllPorts: bool, ports: seq<PortMatch>, namedPorts: seq<EndPoints>,
                               matchAllPeers: bool, peerIPs: seq<Addr>, blocks: seq<Entry>)

  datatype PolicyInfo = PolicyInfo(namespace: string, name: string, targets: seq<Addr>,
                                   ingressType: bool, egressType: bool,
                                   ingress: seq<RuleInfo>, egress: seq<RuleInfo>)

  function InfoRules(info: PolicyInfo, dir: Direction): seq<RuleInfo> {
    match dir case Ingress => info.ingress case Egress => info.egress
  }

  predicate PortOk(m: PortMatch, p: Packet) {
    (m.protocol == "" || m.protocol == p.proto) && (m.port == "" || m.port == p.dport)
  }

  predicate PortsOk(r: RuleInfo, p: Packet) {
    || r.matchAllPorts
    || (exists m :: m in r.ports && PortOk(m, p))
    || (exists ep :: ep in r.namedPorts && p.dst in ep.ips && PortOk(PortMatch(ep.protocol, ep.port), p))
  }

  /** The meaning of one rule in internal form. */
  predicate InfoAllows(targets: seq<Addr>, dir: Direction, r: RuleInfo, p: Packet) {
    && TargetEnd(dir, p) in targets
    && (r.matchAllPeers || PeerEnd(dir, p) in r.peerIPs || InBlocks(r.blocks, PeerEnd(dir, p)))
    && PortsOk(r, p)
  }

  /** What the construction guarantees of a rule in internal form, whatever the cluster. */
  ghost predicate WellFormed(targets: seq<Addr>, dir: Direction, r: RuleInfo) {
    && Storable(r.blocks)
    && (r.matchAllPorts ==> r.ports == [] && r.namedPorts == [])
    && (r.matchAllPeers ==> r.peerIPs == [] && r.blocks == [])
    && (dir == Egress && r.matchAllPeers ==> r.namedPorts == [])
    && forall ep, a :: ep in r.namedPorts && a in ep.ips ==>
         match dir case Ingress => a in targets case Egress => a in r.peerIPs
  }

  /** The endpoints of the named ports of a collection of pods. */
  type PortIndex = map<PortKey, seq<Addr>>

  predicate Lists(index: PortIndex, k: PortKey, a: Addr) {
    k in index && a in index[k]
  }

  ghost predicate Indexes(index: PortIndex, pods: iset<Pod>) {
    && (forall k, a :: Lists(index, k, a) <==> exists pod :: pod in pods && Offers(pod, k, a))
    && forall k :: k in index ==> index[k] != []
  }

  predicate NumericMatch(ps: PortSpec, m: PortMatch) {
    match ps.port
    case AnyPort => m == PortMatch(ps.protocol, "")
    case Number(n) => m == PortMatch(ps.protocol, n)
    case Named(_) => false
  }

  ghost predicate NumericPorts(ports: seq<PortSpec>, matches: seq<PortMatch>) {
    forall m :: m in matches <==> exists ps :: ps in ports && NumericMatch(ps, m)
  }

  predicate NamedMatch(ps: PortSpec, index: PortIndex, k: PortKey, ep: EndPoints) {
    && ps.port.Named? && k in index && k.name == ps.port.name && k.protocol == ps.protocol
    && ep == EndPoints(index[k], k.protocol, k.port)
  }

  ghost predicate NamedPorts(ports: seq<PortSpec>, index: PortIndex, named: seq<EndPoints>) {
    forall ep :: ep in named <==> exists ps, k :: ps in ports && NamedMatch(ps, index, k, ep)
  }

  /** `r` is the internal form of `spec`. */
  ghost predicate Represents(cl: Cluster, pol: Policy, dir: Direction, spec: RuleSpec, r: RuleInfo) {
    && (r.matchAllPeers <==> spec.peers == [])
    && (forall a :: a in r.peerIPs <==> PeerAddr(cl, pol.namespace, spec.peers, a))
    && r.blocks == PeerBlocks(spec.peers)
    && (r.matchAllPorts <==> spec.ports == [])
    && NumericPorts(spec.ports, r.ports)
    && exists index :: Indexes(index, Scope(cl, pol, dir, spec)) && NamedPorts(spec.ports, index, r.namedPorts)
  }

  /** The policy types, explicit or inferred from which rule lists are present. */
  predicate HasType(pol: Policy, dir: Direction) {
    if pol.types != [] then dir in pol.types
    else match dir
      case Ingress => pol.ingress.Some? || pol.egress.None?
      case Egress => pol.egress.Some?
  }

  /** A policy isolates in each direction that it lists; without a list, in those that it has rules for, or ingress. */
  lemma TypesExactly(pol: Policy)
    ensures pol.types != [] ==>
              && (HasType(pol, Ingress) <==> exists i :: 0 <= i < |pol.types| && pol.types[i] == Ingress)
              && (HasType(pol, Egress) <==> exists i :: 0 <= i < |pol.types| && pol.types[i] == Egress)
    ensures pol.types == [] ==>
              && (HasType(pol, Egress) <==> pol.egress.Some?)
              && (!HasType(pol, Ingress) <==> pol.egress.Some? && pol.ingress.None?)
    ensures HasType(pol, Ingress) || HasType(pol, Egress)
  {
    if pol.types != [] {
      assert pol.types[0] == Ingress || pol.types[0] == Egress;
    }
  }

  ghost predicate RepresentsPolicy(cl: Cluster, pol: Policy, info: PolicyInfo) {
    && info.namespace == pol.namespace && info.name == pol.name
    && (forall a :: a in info.targets <==> TargetAddr(cl, pol, a))
    && (info.ingressType <==> HasType(pol, Ingress))
    && (info.egressType <==> HasType(pol, Egress))
    && forall dir ::
         && |InfoRules(info, dir)| == |RulesOf(pol, dir)|
         && forall i :: 0 <= i < |RulesOf(pol, dir)| ==>
           Represents(cl, pol, dir, RulesOf(pol, dir)[i], InfoRules(info, dir)[i])
  }

  /** The internal rules stand for the given ones, each for one; a list that is missing has none. */
  ghost predicate Listed(cl: Cluster, pol: Policy, dir: Direction, specs: Option<seq<RuleSpec>>, rules: seq<RuleInfo>) {
    match specs
    case None => rules == []
    case Some(value) =>
      |rules| == |value| && forall i :: 0 <= i < |value| ==> Represents(cl, pol, dir, value[i], rules[i])
  }

  /** Ports the API accepts: a protocol, and a number that is not empty. */
  ghost predicate ValidPorts(ports: seq<PortSpec>) {
    forall ps :: ps in ports ==> ps.protocol != "" && (ps.port.Number? ==> ps.port.number != "")
  }

  ghost predicate ValidCluster(cl: Cluster) {
    forall pod, c :: pod in cl.pods && c in pod.ports ==> c.protocol != "" && c.port != ""
  }

  ghost predicate ValidPeers(peers: seq<Peer>) {
    forall peer :: peer in peers && peer.ipBlock.Some? ==> ValidBlock(peer.ipBlock.value)
  }

  ghost predicate ValidSpec(spec: RuleSpec) {
    ValidPorts(spec.ports) && ValidPeers(spec.peers)
  }

  lemma {:induction false} BlocksOfPeers(peers: seq<Peer>)
    requires ValidPeers(peers)
    ensures ValidBlocks(BlocksOf(peers)) && PeerBlocks(peers) == AllEntries(BlocksOf(peers))
  {
    hide BlockEntries;
    if peers != [] {
      var front, last := peers[..|peers| - 1], peers[|peers| - 1];
      BlocksOfPeers(front);
      assert last in peers;
      assert BlocksOf(peers) != BlocksOf(front) ==> BlocksOf(peers)[..|BlocksOf(front)|] == BlocksOf(front);
    }
  }

  /** The set that the blocks share accepts exactly the addresses that the blocks admit. */
  lemma PeerBlocksMeaning(peers: seq<Peer>, a: Addr)
    requires ValidPeers(peers)
    ensures Storable(PeerBlocks(peers)) && (InBlocks(PeerBlocks(peers), a) <==> BlocksAdmit(BlocksOf(peers), a))
  {
    hide Loaded, PeerBlocks, AllEntries, ValidPeers, ValidBlocks;
    BlocksOfPeers(peers);
    MergedMeaning(BlocksOf(peers), a);
  }

  /** With a single IPBlock peer that is what its CIDR and its exceptions say. */
  lemma SingleBlock(peers: seq<Peer>, b: IpBlock, a: Addr)
    requires ValidBlock(b) && BlocksOf(peers) == [b] && forall e :: e in b.except ==> b.cidr.len < e.len
    ensures BlocksAdmit(BlocksOf(peers), a) <==> InBlock(a, b)
  {
    hide InNet;
    var blocks := [b];
    MergedExactly(blocks, a);
    assert !Shadowed(blocks, 0, a);
    assert forall e :: e in b.except ==> StoredLen(b.cidr) <= StoredLen(e);
  }

  lemma PortsSound(cl: Cluster, pol: Policy, dir: Direction, spec: RuleSpec, r: RuleInfo, p: Packet, index: PortIndex)
    requires Represents(cl, pol, dir, spec, r) && ValidSpec(spec) && ValidCluster(cl) && PortsOk(r, p)
    requires Indexes(index, Scope(cl, pol, dir, spec)) && NamedPorts(spec.ports, index, r.namedPorts)
    ensures PortAllowed(spec.ports, Scope(cl, pol, dir, spec), p)
  {
    var scope := Scope(cl, pol, dir, spec);
    if m :| m in r.ports && PortOk(m, p) {
      var ps :| ps in spec.ports && NumericMatch(ps, m);
    } else if ep :| ep in r.namedPorts && p.dst in ep.ips && PortOk(PortMatch(ep.protocol, ep.port), p) {
      var ps, k :| ps in spec.ports && NamedMatch(ps, index, k, ep);
      assert Lists(index, k, p.dst);
      var pod :| pod in scope && Offers(pod, k, p.dst);
      assert pod in cl.pods && ContainerPort(k.name, k.protocol, k.port) in pod.ports;
      assert NamedPortAt(scope, k.name, p);
    }
  }

  lemma PortsComplete(cl: Cluster, pol: Policy, dir: Direction, spec: RuleSpec, r: RuleInfo, p: Packet,
                      index: PortIndex)
    requires Represents(cl, pol, dir, spec, r) && PortAllowed(spec.ports, Scope(cl, pol, dir, spec), p)
    requires Indexes(index, Scope(cl, pol, dir, spec)) && NamedPorts(spec.ports, index, r.namedPorts)
    ensures PortsOk(r, p)
  {
    var scope := Scope(cl, pol, dir, spec);
    if spec.ports != [] {
      var ps :| ps in spec.ports && ps.protocol == p.proto &&
        match ps.port
        case AnyPort => true
        case Number(n) => n == p.dport
        case Named(name) => NamedPortAt(scope, name, p);
      match ps.port {
        case AnyPort =>
          assert NumericMatch(ps, PortMatch(ps.protocol, ""));
          assert PortMatch(ps.protocol, "") in r.ports;
        case Number(n) =>
          assert NumericMatch(ps, PortMatch(ps.protocol, n));
          assert PortMatch(ps.protocol, n) in r.ports;
        case Named(name) =>
          var k := PortKey(name, p.proto, p.dport);
          assert Lists(index, k, p.dst);
          var ep := EndPoints(index[k], k.protocol, k.port);
          assert NamedMatch(ps, index, k, ep);
          assert ep in r.namedPorts;
      }
    }
  }

  lemma PortsPreserved(cl: Cluster, pol: Policy, dir: Direction, spec: RuleSpec, r: RuleInfo, p: Packet)
    requires Represents(cl, pol, dir, spec, r) && ValidSpec(spec) && ValidCluster(cl)
    ensures PortsOk(r, p) <==> PortAllowed(spec.ports, Scope(cl, pol, dir, spec), p)
  {
    var index :| Indexes(index, Scope(cl, pol, dir, spec)) && NamedPorts(spec.ports, index, r.namedPorts);
    hide PortsOk, PortAllowed, Indexes, NamedPorts, Scope, ValidSpec, ValidCluster;
    if PortsOk(r, p) {
      PortsSound(cl, pol, dir, spec, r, p, index);
    }
    if PortAllowed(spec.ports, Scope(cl, pol, dir, spec), p) {
      PortsComplete(cl, pol, dir, spec, r, p, index);
    }
  }

  /** The internal form means what the specification means. */
  lemma RulePreserved(cl: Cluster, pol: Policy, dir: Direction, spec: RuleSpec, targets: seq<Addr>, r: RuleInfo,
                      p: Packet)
    requires Represents(cl, pol, dir, spec, r) && ValidSpec(spec) && ValidCluster(cl)
    requires forall a :: a in targets <==> TargetAddr(cl, pol, a)
    ensures InfoAllows(targets, dir, r, p) <==> SpecAllows(cl, pol, dir, spec, p)
  {
    PeerBlocksMeaning(spec.peers, PeerEnd(dir, p));
    PortsPreserved(cl, pol, dir, spec, r, p);
  }

  lemma HeadIsMember<T>(s: seq<T>)
    ensures s != [] ==> s[0] in s
  {}

  lemma RuleWellFormed(cl: Cluster, pol: Policy, dir: Direction, spec: RuleSpec, targets: seq<Addr>, r: RuleInfo)
    requires Represents(cl, pol, dir, spec, r) && ValidSpec(spec)
    requires forall a :: a in targets <==> TargetAddr(cl, pol, a)
    ensures WellFormed(targets, dir, r)
  {
    PeerBlocksMeaning(spec.peers, 0);
    var scope := Scope(cl, pol, dir, spec);
    var index :| Indexes(index, scope) && NamedPorts(spec.ports, index, r.namedPorts);
    HeadIsMember(r.peerIPs);
    HeadIsMember(r.ports);
    HeadIsMember(r.namedPorts);
    forall ep, a | ep in r.namedPorts && a in ep.ips
      ensures match dir case Ingress => a in targets case Egress => a in r.peerIPs
    {
      var ps, k :| ps in spec.ports && NamedMatch(ps, index, k, ep);
      assert Lists(index, k, a);
    }
    forall ep | ep in r.namedPorts
      ensures dir == Egress ==> exists a :: a in r.peerIPs
    {
      var ps, k :| ps in spec.ports && NamedMatch(ps, index, k, ep);
      HeadIsMember(index[k]);
      assert Lists(index, k, index[k][0]);
    }
  }
}
