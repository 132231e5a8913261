/**
 Compiling a policy in internal form to the commands that realise it: sets to create and refresh,
 and ACCEPT rules to append to the policy's chain. The functions give the commands in the order in
 which they are issued.
 */
module Compile {
  import opened Netfilter
  import opened IpBlocks
  import opened Kernel
  import opened Ipset
  import opened Naming
  import opened Policies

  datatype Op =
    | CreateOp(name: string, kind: Kind)
    | UseOp(name: string, kind: Kind, entries: seq<SetEntry>)  // create when missing, then refresh
    | AppendOp(rule: Rule)

  function Hosts(ips: seq<Addr>): seq<SetEntry> {
    seq(|ips|, i requires 0 <= i < |ips| => Host(ips[i]))
  }

  function Nets(entries: seq<Entry>): seq<SetEntry> {
    seq(|entries|, i requires 0 <= i < |entries| => Block(entries[i]))
  }

  /** One ACCEPT rule of a policy chain; an empty argument leaves that match out. */
  function PolicyRule(comment: Comment, src: string, dst: string, m: PortMatch): Rule {
    Rule(comment,
         (if src != "" then [FromSet(src)] else []) +
         (if dst != "" then [ToSet(dst)] else []) +
         (if m.protocol != "" then [Proto(m.protocol)] else []) +
         (if m.port != "" then [DPort(m.port)] else []),
         Accept)
  }

  const ANY_PORT := PortMatch("", "")

  function CommentFor(peers: PeerGroup, info: PolicyInfo): Comment {
    AcceptFor(peers, info.namespace, info.name)
  }

  function TargetSet(d: Digest, info: PolicyInfo, dir: Direction): string {
    match dir
    case Ingress => TargetDestinationSet(d, info.namespace, info.name)
    case Egress => TargetSourceSet(d, info.namespace, info.name)
  }

  function PeerSet(d: Digest, info: PolicyInfo, dir: Direction, i: nat): string {
    match dir
    case Ingress => IngressPodSet(d, info.namespace, info.name, i)
    case Egress => EgressPodSet(d, info.namespace, info.name, i)
  }

  function BlockSet(d: Digest, info: PolicyInfo, dir: Direction, i: nat): string {
    match dir
    case Ingress => IngressBlockSet(d, info.namespace, info.name, i)
    case Egress => EgressBlockSet(d, info.namespace, info.name, i)
  }

  function NamedSet(d: Digest, info: PolicyInfo, dir: Direction, i: nat, j: nat): string {
    match dir
    case Ingress => IngressNamedPortSet(d, info.namespace, info.name, i, j)
    case Egress => EgressNamedPortSet(d, info.namespace, info.name, i, j)
  }

  /** A rule between the policy's pods and the peers; `peer` is empty for all peers. */
  function Between(comment: Comment, dir: Direction, target: string, peer: string, m: PortMatch): Rule {
    match dir
    case Ingress => PolicyRule(comment, peer, target, m)
    case Egress => PolicyRule(comment, target, peer, m)
  }

  /** A rule to the pods that expose a named port. */
  function ToNamed(comment: Comment, dir: Direction, target: string, peer: string, named: string, ep: EndPoints): Rule {
    PolicyRule(comment, if dir == Ingress then peer else target, named, PortMatch(ep.protocol, ep.port))
  }

  function PortOps(comment: Comment, dir: Direction, target: string, peer: string, ports: seq<PortMatch>): seq<Op> {
    seq(|ports|, k requires 0 <= k < |ports| => AppendOp(Between(comment, dir, target, peer, ports[k])))
  }

  function NamedOps(d: Digest, info: PolicyInfo, comment: Comment, dir: Direction, i: nat, peer: string,
                    eps: seq<EndPoints>): seq<Op> {
    if eps == [] then []
    else
      var j := |eps| - 1;
      var name := NamedSet(d, info, dir, i, j);
      NamedOps(d, info, comment, dir, i, peer, eps[..j]) +
      [UseOp(name, IpKind, Hosts(eps[j].ips)),
       AppendOp(ToNamed(comment, dir, TargetSet(d, info, dir), peer, name, eps[j]))]
  }

  /** The rules for peers given as pods. Note the test on the list lengths instead of matchAllPorts. */
  function PodPeerOps(d: Digest, info: PolicyInfo, dir: Direction, i: nat, r: RuleInfo): seq<Op> {
    if r.peerIPs == [] then []
    else
      var target, peer, comment := TargetSet(d, info, dir), PeerSet(d, info, dir, i), CommentFor(PodPeers, info);
      [UseOp(peer, IpKind, Hosts(r.peerIPs))] +
      PortOps(comment, dir, target, peer, r.ports) +
      NamedOps(d, info, comment, dir, i, peer, r.namedPorts) +
      if r.ports == [] && r.namedPorts == [] then [AppendOp(Between(comment, dir, target, peer, ANY_PORT))] else []
  }

  /** The rules when every peer matches. Named ports take part on the ingress side only. */
  function AllPeersOps(d: Digest, info: PolicyInfo, dir: Direction, i: nat, r: RuleInfo): seq<Op> {
    if !r.matchAllPeers then []
    else
      var target := TargetSet(d, info, dir);
      var comment := CommentFor(if dir == Ingress then AllSources else AllDestinations, info);
      if r.matchAllPorts then [AppendOp(Between(comment, dir, target, "", ANY_PORT))]
      else
        PortOps(comment, dir, target, "", r.ports) +
        if dir == Ingress then NamedOps(d, info, comment, dir, i, "", r.namedPorts) else []
  }

  /** The rules for peers given as IP blocks. Named ports take part on the ingress side only. */
  function BlockPeerOps(d: Digest, info: PolicyInfo, dir: Direction, i: nat, r: RuleInfo): seq<Op> {
    if r.blocks == [] then []
    else
      var target, peer := TargetSet(d, info, dir), BlockSet(d, info, dir, i);
      var comment := CommentFor(if dir == Ingress then SourceBlocks else DestinationBlocks, info);
      [UseOp(peer, NetKind, Nets(r.blocks))] +
      if r.matchAllPorts then [AppendOp(Between(comment, dir, target, peer, ANY_PORT))]
      else
        PortOps(comment, dir, target, peer, r.ports) +
        if dir == Ingress then NamedOps(d, info, comment, dir, i, peer, r.namedPorts) else []
  }

  function RuleOps(d: Digest, info: PolicyInfo, dir: Direction, i: nat, r: RuleInfo): seq<Op> {
    PodPeerOps(d, info, dir, i, r) + AllPeersOps(d, info, dir, i, r) + BlockPeerOps(d, info, dir, i, r)
  }

  function Flatten(parts: seq<seq<Op>>): seq<Op> {
    if parts == [] then [] else Flatten(parts[..|parts| - 1]) + parts[|parts| - 1]
  }

  function RulesOps(d: Digest, info: PolicyInfo, dir: Direction): seq<Op> {
    var rules := InfoRules(info, dir);
    Flatten(seq(|rules|, i requires 0 <= i < |rules| => RuleOps(d, info, dir, i, rules[i])))
  }

  /** Everything that one policy contributes, after its chain exists. */
  function PolicyOps(d: Digest, info: PolicyInfo): seq<Op> {
    var dst, src := TargetSet(d, info, Ingress), TargetSet(d, info, Egress);
    [CreateOp(dst, IpKind), UseOp(src, IpKind, Hosts(info.targets)), UseOp(dst, IpKind, Hosts(info.targets))] +
    RulesOps(d, info, Ingress) + RulesOps(d, info, Egress)
  }

  // What the compiled rules accept.

  /** The sets hold what the operations last asked for. */
  ghost predicate Realised(ops: seq<Op>, sets: Sets) {
    forall op :: op in ops && op.UseOp? ==>
      AllFit(op.kind, op.entries) && op.name in sets && sets[op.name] == Contents(op.kind, op.entries)
  }

  ghost predicate Admitted(ops: seq<Op>, p: Packet, sets: Sets) {
    exists op :: op in ops && op.AppendOp? && Matches(op.rule, p, sets)
  }

  lemma AdmittedConcat(a: seq<Op>, b: seq<Op>, p: Packet, sets: Sets)
    ensures Admitted(a + b, p, sets) <==> Admitted(a, p, sets) || Admitted(b, p, sets)
    ensures Realised(a + b, sets) ==> Realised(a, sets) && Realised(b, sets)
  {
    assert forall op :: op in a + b <==> op in a || op in b;
  }

  lemma HostsMember(ips: seq<Addr>, a: Addr)
    ensures AllFit(IpKind, Hosts(ips))
    ensures InSet(Contents(IpKind, Hosts(ips)), a) <==> a in ips
  {
    AddAllFromScratch(HashIp({}), Hosts(ips));
    if i :| 0 <= i < |ips| && ips[i] == a {
      assert Hosts(ips)[i] == Host(a);
    }
  }

  lemma {:induction false} NetsLoaded(entries: seq<Entry>)
    requires Storable(entries)
    ensures AllFit(NetKind, Nets(entries))
    ensures Contents(NetKind, Nets(entries)) == HashNet(Loaded(entries))
  {
    if entries != [] {
      var n := |entries| - 1;
      NetsLoaded(entries[..n]);
      assert Nets(entries)[..n] == Nets(entries[..n]);
    }
  }

  predicate InNamed(name: string, sets: Sets, a: Addr) {
    name == "" || (name in sets && InSet(sets[name], a))
  }

  lemma MatchesConcat(comment: Comment, a: seq<Cond>, b: seq<Cond>, target: Target, p: Packet, sets: Sets)
    ensures Matches(Rule(comment, a + b, target), p, sets) <==>
            Matches(Rule(comment, a, target), p, sets) && Matches(Rule(comment, b, target), p, sets)
  {
    hide Holds;
    assert forall c :: c in a + b <==> c in a || c in b;
  }

  lemma MatchesOne(comment: Comment, conds: seq<Cond>, c: Cond, p: Packet, sets: Sets)
    requires conds == [] || conds == [c]
    ensures Matches(Rule(comment, conds, Accept), p, sets) <==> conds == [] || Holds(c, p, sets)
  {
    hide Holds;
  }

  lemma PolicyRuleMatches(comment: Comment, src: string, dst: string, m: PortMatch, p: Packet, sets: Sets)
    ensures Matches(PolicyRule(comment, src, dst, m), p, sets) <==>
            InNamed(src, sets, p.src) && InNamed(dst, sets, p.dst) && PortOk(m, p)
  {
    hide InSet;
    var from, to := if src != "" then [FromSet(src)] else [], if dst != "" then [ToSet(dst)] else [];
    var proto := if m.protocol != "" then [Proto(m.protocol)] else [];
    var port := if m.port != "" then [DPort(m.port)] else [];
    MatchesConcat(comment, from + to + proto, port, Accept, p, sets);
    MatchesConcat(comment, from + to, proto, Accept, p, sets);
    MatchesConcat(comment, from, to, Accept, p, sets);
    MatchesOne(comment, from, FromSet(src), p, sets);
    MatchesOne(comment, to, ToSet(dst), p, sets);
    MatchesOne(comment, proto, Proto(m.protocol), p, sets);
    MatchesOne(comment, port, DPort(m.port), p, sets);
    hide Matches;
    assert PolicyRule(comment, src, dst, m) == Rule(comment, from + to + proto + port, Accept);
  }

  lemma BetweenMatches(comment: Comment, dir: Direction, target: string, peer: string, m: PortMatch, p: Packet,
                       sets: Sets)
    ensures Matches(Between(comment, dir, target, peer, m), p, sets) <==>
            InNamed(target, sets, TargetEnd(dir, p)) && InNamed(peer, sets, PeerEnd(dir, p)) && PortOk(m, p)
  {
    PolicyRuleMatches(comment, peer, target, m, p, sets);
    PolicyRuleMatches(comment, target, peer, m, p, sets);
  }

  lemma PortOpsAdmit(comment: Comment, dir: Direction, target: string, peer: string, ports: seq<PortMatch>, p: Packet,
                     sets: Sets)
    ensures Admitted(PortOps(comment, dir, target, peer, ports), p, sets) <==>
            InNamed(target, sets, TargetEnd(dir, p)) && InNamed(peer, sets, PeerEnd(dir, p)) &&
              exists m :: m in ports && PortOk(m, p)
  {
    var ops := PortOps(comment, dir, target, peer, ports);
    forall m
      ensures Matches(Between(comment, dir, target, peer, m), p, sets) <==>
              InNamed(target, sets, TargetEnd(dir, p)) && InNamed(peer, sets, PeerEnd(dir, p)) && PortOk(m, p)
    {
      BetweenMatches(comment, dir, target, peer, m, p, sets);
    }
    assert forall k :: 0 <= k < |ports| ==> ops[k] == AppendOp(Between(comment, dir, target, peer, ports[k]));
    if m :| m in ports && PortOk(m, p) {
      var k :| 0 <= k < |ports| && ports[k] == m;
      assert ops[k] in ops;
    }
  }

  ghost predicate AtNamed(eps: seq<EndPoints>, p: Packet) {
    exists ep :: ep in eps && p.dst in ep.ips && PortOk(PortMatch(ep.protocol, ep.port), p)
  }

  /** The set that the source end of a named-port rule must lie in. */
  function NamedSource(d: Digest, info: PolicyInfo, dir: Direction, peer: string): string {
    if dir == Ingress then peer else TargetSet(d, info, dir)
  }

  lemma {:induction false} NamedOpsAdmit(d: Digest, info: PolicyInfo, comment: Comment, dir: Direction, i: nat,
                                         peer: string, eps: seq<EndPoints>, p: Packet, sets: Sets)
    requires Realised(NamedOps(d, info, comment, dir, i, peer, eps), sets)
    ensures Admitted(NamedOps(d, info, comment, dir, i, peer, eps), p, sets) <==>
            InNamed(NamedSource(d, info, dir, peer), sets, p.src) && AtNamed(eps, p)
  {
    if eps != [] {
      var j := |eps| - 1;
      var ep, name := eps[j], NamedSet(d, info, dir, i, j);
      var front := NamedOps(d, info, comment, dir, i, peer, eps[..j]);
      var rule := ToNamed(comment, dir, TargetSet(d, info, dir), peer, name, ep);
      var last := [UseOp(name, IpKind, Hosts(ep.ips)), AppendOp(rule)];
      AdmittedConcat(front, last, p, sets);
      assert last[0] in last && last[1] in last;
      NamedOpsAdmit(d, info, comment, dir, i, peer, eps[..j], p, sets);
      HostsMember(ep.ips, p.dst);
      PolicyRuleMatches(comment, NamedSource(d, info, dir, peer), name, PortMatch(ep.protocol, ep.port), p, sets);
      assert Admitted(last, p, sets) <==> Matches(rule, p, sets);
      assert forall x :: x in eps <==> x in eps[..j] || x == ep;
    }
  }

  /** Ports were given, but none of them resolved to anything. */
  predicate Vacuous(r: RuleInfo) {
    !r.matchAllPorts && r.ports == [] && r.namedPorts == []
  }

  /** The packets that the list-length test lets through although the rule allows nothing. */
  predicate Leaks(targets: seq<Addr>, dir: Direction, r: RuleInfo, p: Packet) {
    Vacuous(r) && TargetEnd(dir, p) in targets && PeerEnd(dir, p) in r.peerIPs
  }

  ghost predicate TargetsRealised(d: Digest, info: PolicyInfo, sets: Sets) {
    forall dir ::
      && TargetSet(d, info, dir) in sets
      && sets[TargetSet(d, info, dir)] == Contents(IpKind, Hosts(info.targets))
  }

  lemma TargetMember(d: Digest, info: PolicyInfo, dir: Direction, sets: Sets, a: Addr)
    requires TargetsRealised(d, info, sets)
    ensures InNamed(TargetSet(d, info, dir), sets, a) <==> a in info.targets
  {
    HostsMember(info.targets, a);
    assert |TargetSet(d, info, dir)| >= 9;
  }

  lemma PodPeersAdmit(d: Digest, info: PolicyInfo, dir: Direction, i: nat, r: RuleInfo, p: Packet, sets: Sets)
    requires TargetsRealised(d, info, sets) && Realised(PodPeerOps(d, info, dir, i, r), sets)
    requires WellFormed(info.targets, dir, r)
    ensures Admitted(PodPeerOps(d, info, dir, i, r), p, sets) <==>
            TargetEnd(dir, p) in info.targets && PeerEnd(dir, p) in r.peerIPs && (PortsOk(r, p) || Vacuous(r))
  {
    if r.peerIPs != [] {
      var target, peer, comment := TargetSet(d, info, dir), PeerSet(d, info, dir, i), CommentFor(PodPeers, info);
      var sets_ := [UseOp(peer, IpKind, Hosts(r.peerIPs))];
      var ports := PortOps(comment, dir, target, peer, r.ports);
      var named := NamedOps(d, info, comment, dir, i, peer, r.namedPorts);
      var rest := if r.ports == [] && r.namedPorts == []
        then [AppendOp(Between(comment, dir, target, peer, ANY_PORT))] else [];
      AdmittedConcat(sets_ + ports + named, rest, p, sets);
      AdmittedConcat(sets_ + ports, named, p, sets);
      AdmittedConcat(sets_, ports, p, sets);
      assert sets_[0] in sets_;
      TargetMember(d, info, dir, sets, TargetEnd(dir, p));
      HostsMember(r.peerIPs, PeerEnd(dir, p));
      assert |peer| >= 9;
      PortOpsAdmit(comment, dir, target, peer, r.ports, p, sets);
      NamedOpsAdmit(d, info, comment, dir, i, peer, r.namedPorts, p, sets);
      BetweenMatches(comment, dir, target, peer, ANY_PORT, p, sets);
    }
  }

  lemma AllPeersAdmit(d: Digest, info: PolicyInfo, dir: Direction, i: nat, r: RuleInfo, p: Packet, sets: Sets)
    requires TargetsRealised(d, info, sets) && Realised(AllPeersOps(d, info, dir, i, r), sets)
    requires WellFormed(info.targets, dir, r)
    ensures Admitted(AllPeersOps(d, info, dir, i, r), p, sets) <==>
            r.matchAllPeers && TargetEnd(dir, p) in info.targets && PortsOk(r, p)
  {
    if r.matchAllPeers {
      var target := TargetSet(d, info, dir);
      var comment := CommentFor(if dir == Ingress then AllSources else AllDestinations, info);
      TargetMember(d, info, dir, sets, TargetEnd(dir, p));
      if r.matchAllPorts {
        BetweenMatches(comment, dir, target, "", ANY_PORT, p, sets);
      } else {
        var named := if dir == Ingress then NamedOps(d, info, comment, dir, i, "", r.namedPorts) else [];
        AdmittedConcat(PortOps(comment, dir, target, "", r.ports), named, p, sets);
        PortOpsAdmit(comment, dir, target, "", r.ports, p, sets);
        if dir == Ingress {
          NamedOpsAdmit(d, info, comment, dir, i, "", r.namedPorts, p, sets);
        }
      }
    }
  }

  lemma BlockPeersAdmit(d: Digest, info: PolicyInfo, dir: Direction, i: nat, r: RuleInfo, p: Packet, sets: Sets)
    requires TargetsRealised(d, info, sets) && Realised(BlockPeerOps(d, info, dir, i, r), sets)
    requires WellFormed(info.targets, dir, r)
    ensures Admitted(BlockPeerOps(d, info, dir, i, r), p, sets) <==>
            && r.blocks != [] && InBlocks(r.blocks, PeerEnd(dir, p)) && TargetEnd(dir, p) in info.targets
            && (r.matchAllPorts || (exists m :: m in r.ports && PortOk(m, p)) ||
                (dir == Ingress && AtNamed(r.namedPorts, p)))
  {
    if r.blocks != [] {
      var target, peer := TargetSet(d, info, dir), BlockSet(d, info, dir, i);
      var comment := CommentFor(if dir == Ingress then SourceBlocks else DestinationBlocks, info);
      var sets_ := [UseOp(peer, NetKind, Nets(r.blocks))];
      assert sets_[0] in sets_;
      TargetMember(d, info, dir, sets, TargetEnd(dir, p));
      NetsLoaded(r.blocks);
      assert |peer| >= 9;
      if r.matchAllPorts {
        AdmittedConcat(sets_, [AppendOp(Between(comment, dir, target, peer, ANY_PORT))], p, sets);
        BetweenMatches(comment, dir, target, peer, ANY_PORT, p, sets);
      } else {
        var ports := PortOps(comment, dir, target, peer, r.ports);
        var named := if dir == Ingress then NamedOps(d, info, comment, dir, i, peer, r.namedPorts) else [];
        AdmittedConcat(sets_, ports + named, p, sets);
        AdmittedConcat(ports, named, p, sets);
        PortOpsAdmit(comment, dir, target, peer, r.ports, p, sets);
        if dir == Ingress {
          NamedOpsAdmit(d, info, comment, dir, i, peer, r.namedPorts, p, sets);
        }
      }
    }
  }

  lemma {:induction false} NothingStored(a: Addr, len: nat)
    requires len <= 32
    ensures !NetLookup(map[], a, len)
  {
    if len > 0 {
      NothingStored(a, len - 1);
    }
  }

  /** The three groups of rules together cover the meaning of the rule. */
  lemma PeersCovered(targets: seq<Addr>, dir: Direction, r: RuleInfo, p: Packet)
    requires WellFormed(targets, dir, r) && TargetEnd(dir, p) in targets
    ensures (|| (PeerEnd(dir, p) in r.peerIPs && (PortsOk(r, p) || Vacuous(r)))
             || (r.matchAllPeers && PortsOk(r, p))
             || (&& r.blocks != [] && InBlocks(r.blocks, PeerEnd(dir, p))
                 && (r.matchAllPorts || (exists m :: m in r.ports && PortOk(m, p)) ||
                     (dir == Ingress && AtNamed(r.namedPorts, p)))))
            <==> InfoAllows(targets, dir, r, p) || Leaks(targets, dir, r, p)
  {
    NothingStored(PeerEnd(dir, p), 32);
    assert r.blocks == [] ==> !InBlocks(r.blocks, PeerEnd(dir, p));
    assert PortsOk(r, p) <==> r.matchAllPorts || (exists m :: m in r.ports && PortOk(m, p)) || AtNamed(r.namedPorts, p);
    if dir == Egress && AtNamed(r.namedPorts, p) {
      var ep :| ep in r.namedPorts && p.dst in ep.ips && PortOk(PortMatch(ep.protocol, ep.port), p);
      assert PeerEnd(dir, p) in r.peerIPs;
    }
  }

  /** Exactly what the commands of one rule admit, for every packet. */
  lemma RuleCompiled(d: Digest, info: PolicyInfo, dir: Direction, i: nat, r: RuleInfo, p: Packet, sets: Sets)
    requires TargetsRealised(d, info, sets) && Realised(RuleOps(d, info, dir, i, r), sets)
    requires WellFormed(info.targets, dir, r)
    ensures Admitted(RuleOps(d, info, dir, i, r), p, sets) <==>
            InfoAllows(info.targets, dir, r, p) || Leaks(info.targets, dir, r, p)
  {
    var a, b, c := PodPeerOps(d, info, dir, i, r), AllPeersOps(d, info, dir, i, r), BlockPeerOps(d, info, dir, i, r);
    AdmittedConcat(a + b, c, p, sets);
    AdmittedConcat(a, b, p, sets);
    PodPeersAdmit(d, info, dir, i, r, p, sets);
    AllPeersAdmit(d, info, dir, i, r, p, sets);
    BlockPeersAdmit(d, info, dir, i, r, p, sets);
    if TargetEnd(dir, p) in info.targets {
      PeersCovered(info.targets, dir, r, p);
    }
  }

  /**
   One rule means what it says for every packet if and only if it does not combine selected pods
   with ports of which none resolved.
   */
  lemma RuleCompiledExactly(d: Digest, info: PolicyInfo, dir: Direction, i: nat, r: RuleInfo, sets: Sets)
    requires TargetsRealised(d, info, sets) && Realised(RuleOps(d, info, dir, i, r), sets)
    requires WellFormed(info.targets, dir, r)
    ensures (forall p :: Admitted(RuleOps(d, info, dir, i, r), p, sets) <==> InfoAllows(info.targets, dir, r, p)) <==>
            !(Vacuous(r) && r.peerIPs != [] && info.targets != [])
  {
    forall p
      ensures Admitted(RuleOps(d, info, dir, i, r), p, sets) <==>
              InfoAllows(info.targets, dir, r, p) || Leaks(info.targets, dir, r, p)
    {
      RuleCompiled(d, info, dir, i, r, p, sets);
    }
    if Vacuous(r) && r.peerIPs != [] && info.targets != [] {
      var target, peer := info.targets[0], r.peerIPs[0];
      var src, dst := if dir == Ingress then peer else target, if dir == Ingress then target else peer;
      var p := Packet(src, dst, "", "", false, false, false, {});
      assert Leaks(info.targets, dir, r, p) && !InfoAllows(info.targets, dir, r, p);
      assert Admitted(RuleOps(d, info, dir, i, r), p, sets);
    } else {
      assert forall p :: !Leaks(info.targets, dir, r, p);
    }
  }

  /** A rule from one selected pod to one of the policy's pods, whose ports resolved to nothing. */
  function UnresolvedRule(peer: Addr): RuleInfo {
    RuleInfo(false, [], [], false, [peer], [])
  }

  function UnresolvedPolicy(target: Addr, peer: Addr): PolicyInfo {
    PolicyInfo("ns", "web", [target], true, false, [UnresolvedRule(peer)], [])
  }

  /** The sets that such a policy asks for. */
  function UnresolvedSets(d: Digest, target: Addr, peer: Addr): Sets {
    var info := UnresolvedPolicy(target, peer);
    HostsMember([target], target);
    HostsMember([peer], peer);
    map[TargetSet(d, info, Ingress) := Contents(IpKind, Hosts([target])),
        TargetSet(d, info, Egress) := Contents(IpKind, Hosts([target])),
        PeerSet(d, info, Ingress, 0) := Contents(IpKind, Hosts([peer]))]
  }

  /** It admits every packet from the one pod to the other, on any port, and means to allow none. */
  lemma UnresolvedPortsOpen(d: Digest, target: Addr, peer: Addr, p: Packet)
    requires var info := UnresolvedPolicy(target, peer);
             TargetSet(d, info, Egress) != PeerSet(d, info, Ingress, 0)
    requires p.src == peer && p.dst == target
    ensures var info, r, sets := UnresolvedPolicy(target, peer), UnresolvedRule(peer), UnresolvedSets(d, target, peer);
            && TargetsRealised(d, info, sets) && Realised(RuleOps(d, info, Ingress, 0, r), sets)
            && WellFormed(info.targets, Ingress, r)
            && Admitted(RuleOps(d, info, Ingress, 0, r), p, sets) && !InfoAllows(info.targets, Ingress, r, p)
  {
    var info, r, sets := UnresolvedPolicy(target, peer), UnresolvedRule(peer), UnresolvedSets(d, target, peer);
    HostsMember([target], target);
    HostsMember([peer], peer);
    hide Contents, Hosts, AllFit;
    assert DESTINATION_PREFIX[5] == 'D' && SOURCE_PREFIX[5] == 'S';
    assert TargetSet(d, info, Ingress)[5] == 'D' && TargetSet(d, info, Egress)[5] == 'S' &&
      PeerSet(d, info, Ingress, 0)[5] == 'S';
    hide TargetSet, PeerSet;
    assert TargetsRealised(d, info, sets);
    assert Realised(RuleOps(d, info, Ingress, 0, r), sets);
    assert Leaks(info.targets, Ingress, r, p);
    RuleCompiled(d, info, Ingress, 0, r, p, sets);
  }

  // Whole policies.

  lemma {:induction false} FlattenAdmits(parts: seq<seq<Op>>, p: Packet, sets: Sets)
    ensures Admitted(Flatten(parts), p, sets) <==> exists i :: 0 <= i < |parts| && Admitted(parts[i], p, sets)
    ensures Realised(Flatten(parts), sets) ==> forall i :: 0 <= i < |parts| ==> Realised(parts[i], sets)
  {
    if parts != [] {
      var n := |parts| - 1;
      FlattenAdmits(parts[..n], p, sets);
      AdmittedConcat(Flatten(parts[..n]), parts[n], p, sets);
      assert forall i :: 0 <= i < n ==> parts[..n][i] == parts[i];
    }
  }

  ghost predicate WellFormedPolicy(info: PolicyInfo) {
    forall dir, i :: 0 <= i < |InfoRules(info, dir)| ==> WellFormed(info.targets, dir, InfoRules(info, dir)[i])
  }

  ghost predicate AllowedBy(info: PolicyInfo, dir: Direction, i: nat, p: Packet) {
    i < |InfoRules(info, dir)| && InfoAllows(info.targets, dir, InfoRules(info, dir)[i], p)
  }

  ghost predicate LeakedBy(info: PolicyInfo, dir: Direction, i: nat, p: Packet) {
    i < |InfoRules(info, dir)| && Leaks(info.targets, dir, InfoRules(info, dir)[i], p)
  }

  ghost predicate Decided(info: PolicyInfo, dir: Direction, i: nat, p: Packet) {
    AllowedBy(info, dir, i, p) || LeakedBy(info, dir, i, p)
  }

  lemma PartsDecide(parts: seq<seq<Op>>, info: PolicyInfo, dir: Direction, p: Packet, sets: Sets)
    requires |parts| == |InfoRules(info, dir)|
    requires forall i: nat :: i < |parts| ==> (Admitted(parts[i], p, sets) <==> Decided(info, dir, i, p))
    ensures Admitted(Flatten(parts), p, sets) <==> exists i :: Decided(info, dir, i, p)
  {
    FlattenAdmits(parts, p, sets);
  }

  lemma RuleDecides(d: Digest, info: PolicyInfo, dir: Direction, i: nat, part: seq<Op>, p: Packet, sets: Sets)
    requires WellFormedPolicy(info) && TargetsRealised(d, info, sets) && i < |InfoRules(info, dir)|
    requires part == RuleOps(d, info, dir, i, InfoRules(info, dir)[i]) && Realised(part, sets)
    ensures Admitted(part, p, sets) <==> Decided(info, dir, i, p)
  {
    RuleCompiled(d, info, dir, i, InfoRules(info, dir)[i], p, sets);
  }

  lemma RulesCompiled(d: Digest, info: PolicyInfo, dir: Direction, p: Packet, sets: Sets)
    requires WellFormedPolicy(info) && TargetsRealised(d, info, sets) && Realised(RulesOps(d, info, dir), sets)
    ensures Admitted(RulesOps(d, info, dir), p, sets) <==> exists i :: Decided(info, dir, i, p)
  {
    var rules := InfoRules(info, dir);
    var parts := seq(|rules|, i requires 0 <= i < |rules| => RuleOps(d, info, dir, i, rules[i]));
    FlattenAdmits(parts, p, sets);
    forall i: nat | i < |rules|
      ensures Admitted(parts[i], p, sets) <==> Decided(info, dir, i, p)
    {
      RuleDecides(d, info, dir, i, parts[i], p, sets);
    }
    PartsDecide(parts, info, dir, p, sets);
  }

  /** Exactly what the commands of one policy admit, for every packet. */
  lemma PolicyCompiled(d: Digest, info: PolicyInfo, p: Packet, sets: Sets)
    requires WellFormedPolicy(info) && Realised(PolicyOps(d, info), sets)
    ensures Admitted(PolicyOps(d, info), p, sets) <==>
            exists dir, i :: Decided(info, dir, i, p)
  {
    var dst, src := TargetSet(d, info, Ingress), TargetSet(d, info, Egress);
    var head := [CreateOp(dst, IpKind), UseOp(src, IpKind, Hosts(info.targets)),
                 UseOp(dst, IpKind, Hosts(info.targets))];
    AdmittedConcat(head + RulesOps(d, info, Ingress), RulesOps(d, info, Egress), p, sets);
    AdmittedConcat(head, RulesOps(d, info, Ingress), p, sets);
    assert head[1] in head && head[2] in head;
    assert TargetsRealised(d, info, sets);
    RulesCompiled(d, info, Ingress, p, sets);
    RulesCompiled(d, info, Egress, p, sets);
  }
}
