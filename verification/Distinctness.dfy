/**
 When the commands of a sync are coherent and its names distinct. All of it follows from a digest that
 does not confuse the texts in use, and from what can be read off the policies and pods.
 */
module Distinctness {
  import opened Basics
  import opened Netfilter
  import opened Kernel
  import opened Text
  import opened Naming
  import opened NameTexts
  import opened Policies
  import opened Compile
  import opened PodChains
  import opened Sync
  import opened SyncPolicies
  import opened SyncPods

  /** What a set of a policy is for. */
  datatype SetUse =
    | Targets(dir: Direction)
    | Pods(dir: Direction, rule: nat)
    | Blocks(dir: Direction, rule: nat)
    | Ports(dir: Direction, rule: nat, port: nat)

  function NameFor(d: Digest, info: PolicyInfo, u: SetUse): string {
    match u
    case Targets(dir) => TargetSet(d, info, dir)
    case Pods(dir, i) => PeerSet(d, info, dir, i)
    case Blocks(dir, i) => BlockSet(d, info, dir, i)
    case Ports(dir, i, j) => NamedSet(d, info, dir, i, j)
  }

  /** Sets that the packet's source is looked up in, and those for its destination. */
  function PrefixFor(u: SetUse): string {
    match u
    case Targets(dir) => if dir == Ingress then DESTINATION_PREFIX else SOURCE_PREFIX
    case Ports(_, _, _) => DESTINATION_PREFIX
    case _ => if u.dir == Ingress then SOURCE_PREFIX else DESTINATION_PREFIX
  }

  function BaseOf(info: PolicyInfo): string {
    info.namespace + info.name
  }

  function TailFor(u: SetUse): Tail
    requires !u.Targets?
  {
    var word := if u.dir == Ingress then "ingressrule" else "egressrule";
    match u
    case Pods(_, i) => Tail(word, Itoa(i), "pod")
    case Blocks(_, i) => Tail(word, Itoa(i), "ipblock")
    case Ports(_, i, j) => Tail(word, Itoa(i) + Itoa(j), "namedport")
  }

  function TextFor(info: PolicyInfo, u: SetUse): string {
    if u.Targets? then BaseOf(info) else WithTail(BaseOf(info), TailFor(u))
  }

  lemma NamedByText(d: Digest, info: PolicyInfo, u: SetUse)
    ensures NameFor(d, info, u) == PrefixFor(u) + d(TextFor(info, u))
  {
    if u.Ports? {
      var word := if u.dir == Ingress then "ingressrule" else "egressrule";
      assert BaseOf(info) + word + (Itoa(u.rule) + Itoa(u.port)) == BaseOf(info) + word + Itoa(u.rule) + Itoa(u.port);
    }
  }

  lemma TailIsTail(u: SetUse)
    requires !u.Targets?
    ensures IsTail(TailFor(u))
  {
    ItoaDigits(u.rule);
    if u.Ports? {
      ItoaDigits(u.port);
    }
  }

  /** Two uses whose texts agree: the same one, the targets of both directions, or ports with numerals that do. */
  predicate Alike(u: SetUse, v: SetUse) {
    || u == v
    || (u.Targets? && v.Targets?)
    || (u.Ports? && v.Ports? && u.dir == v.dir && Itoa(u.rule) + Itoa(u.port) == Itoa(v.rule) + Itoa(v.port))
  }

  /** The texts of a policy's sets tell what they are for, but for numerals that run into each other. */
  lemma TextsAlike(info: PolicyInfo, u: SetUse, v: SetUse)
    ensures TextFor(info, u) == TextFor(info, v) <==> Alike(u, v)
  {
    var base := BaseOf(info);
    if !u.Targets? {
      TailIsTail(u);
      TailGrows(base, TailFor(u));
    }
    if !v.Targets? {
      TailIsTail(v);
      TailGrows(base, TailFor(v));
    }
    if !u.Targets? && !v.Targets? && TextFor(info, u) == TextFor(info, v) {
      SameTail(base, TailFor(u), base, TailFor(v));
      if u.Ports? == v.Ports? && !u.Ports? {
        ItoaInjective(u.rule, v.rule);
      }
    }
  }

  /** Texts of different policies agree only if one policy's own text ends like a rule of the other's. */
  lemma TextsApart(a: PolicyInfo, b: PolicyInfo, u: SetUse, v: SetUse)
    requires TextFor(a, u) == TextFor(b, v) && BaseOf(a) != BaseOf(b)
    ensures u.Targets? != v.Targets?
  {
    if !u.Targets? && !v.Targets? {
      TailIsTail(u);
      TailIsTail(v);
      SameTail(BaseOf(a), TailFor(u), BaseOf(b), TailFor(v));
    }
  }

  // What the commands of a policy use.

  /** The named ports of a rule get sets. */
  predicate NamesUsed(dir: Direction, r: RuleInfo) {
    r.peerIPs != [] || (dir == Ingress && !r.matchAllPorts && (r.matchAllPeers || r.blocks != []))
  }

  predicate Used(info: PolicyInfo, u: SetUse) {
    u.Targets? ||
    (u.rule < |InfoRules(info, u.dir)| &&
     var r := InfoRules(info, u.dir)[u.rule];
     match u
     case Pods(_, _) => r.peerIPs != []
     case Blocks(_, _) => r.blocks != []
     case Ports(dir, _, j) => j < |r.namedPorts| && NamesUsed(dir, r))
  }

  function KindFor(u: SetUse): Kind {
    if u.Blocks? then NetKind else IpKind
  }

  function EntriesFor(info: PolicyInfo, u: SetUse): seq<SetEntry>
    requires Used(info, u)
  {
    match u
    case Targets(_) => Hosts(info.targets)
    case Pods(dir, i) => Hosts(InfoRules(info, dir)[i].peerIPs)
    case Blocks(dir, i) => Nets(InfoRules(info, dir)[i].blocks)
    case Ports(dir, i, j) => Hosts(InfoRules(info, dir)[i].namedPorts[j].ips)
  }

  ghost predicate Does(d: Digest, info: PolicyInfo, u: SetUse, op: Op) {
    && Used(info, u) && !op.AppendOp? && op.name == NameFor(d, info, u) && op.kind == KindFor(u)
    && (op.UseOp? ==> op.entries == EntriesFor(info, u))
  }

  function UseFor(d: Digest, info: PolicyInfo, u: SetUse): Op
    requires Used(info, u)
  {
    UseOp(NameFor(d, info, u), KindFor(u), EntriesFor(info, u))
  }

  /** Every set command of these serves a use. */
  ghost predicate Serve(d: Digest, info: PolicyInfo, ops: seq<Op>) {
    forall op :: op in ops && !op.AppendOp? ==> exists u :: Does(d, info, u, op)
  }

  lemma ServeConcat(d: Digest, info: PolicyInfo, a: seq<Op>, b: seq<Op>)
    requires Serve(d, info, a) && Serve(d, info, b)
    ensures Serve(d, info, a + b)
  {
    assert forall op :: op in a + b <==> op in a || op in b;
  }

  lemma ServeOne(d: Digest, info: PolicyInfo, u: SetUse)
    requires Used(info, u)
    ensures Serve(d, info, [UseFor(d, info, u)])
  {
    assert Does(d, info, u, UseFor(d, info, u));
  }

  lemma ServeNothing(d: Digest, info: PolicyInfo)
    ensures Serve(d, info, [])
  {
  }

  lemma UseThenAppend(d: Digest, info: PolicyInfo, u: SetUse, append: Op)
    requires Used(info, u) && append.AppendOp?
    ensures Serve(d, info, [UseFor(d, info, u), append])
  {
    assert Does(d, info, u, UseFor(d, info, u));
  }

  lemma {:induction false} NamedServe(d: Digest, info: PolicyInfo, comment: Comment, dir: Direction, i: nat,
                                      peer: string, n: nat)
    requires i < |InfoRules(info, dir)| && n <= |InfoRules(info, dir)[i].namedPorts|
    requires NamesUsed(dir, InfoRules(info, dir)[i])
    ensures var eps := InfoRules(info, dir)[i].namedPorts[..n];
            && Serve(d, info, NamedOps(d, info, comment, dir, i, peer, eps))
            && forall j: nat :: j < n ==>
                 UseFor(d, info, Ports(dir, i, j)) in NamedOps(d, info, comment, dir, i, peer, eps)
  {
    hide NamedSet, ToNamed, Hosts, NamesUsed, TargetSet, Serve;
    var eps := InfoRules(info, dir)[i].namedPorts[..n];
    if n == 0 {
      ServeNothing(d, info);
    } else {
      var front := InfoRules(info, dir)[i].namedPorts[..n - 1];
      NamedServe(d, info, comment, dir, i, peer, n - 1);
      assert eps[..n - 1] == front;
      var u := Ports(dir, i, n - 1);
      var append := AppendOp(ToNamed(comment, dir, TargetSet(d, info, dir), peer, NameFor(d, info, u), eps[n - 1]));
      UseThenAppend(d, info, u, append);
      ServeConcat(d, info, NamedOps(d, info, comment, dir, i, peer, front), [UseFor(d, info, u), append]);
    }
  }

  lemma AllNamedServe(d: Digest, info: PolicyInfo, comment: Comment, dir: Direction, i: nat, peer: string)
    requires i < |InfoRules(info, dir)| && NamesUsed(dir, InfoRules(info, dir)[i])
    ensures var eps := InfoRules(info, dir)[i].namedPorts;
            && Serve(d, info, NamedOps(d, info, comment, dir, i, peer, eps))
            && forall j: nat :: j < |eps| ==>
                 UseFor(d, info, Ports(dir, i, j)) in NamedOps(d, info, comment, dir, i, peer, eps)
  {
    var eps := InfoRules(info, dir)[i].namedPorts;
    NamedServe(d, info, comment, dir, i, peer, |eps|);
    assert eps[..|eps|] == eps;
  }

  lemma AppendsServe(d: Digest, info: PolicyInfo, comment: Comment, dir: Direction, target: string, peer: string,
                     ports: seq<PortMatch>)
    ensures Serve(d, info, PortOps(comment, dir, target, peer, ports))
    ensures Serve(d, info, [AppendOp(Between(comment, dir, target, peer, ANY_PORT))]) && Serve(d, info, [])
  {
    hide Between;
  }

  lemma PodsServe(d: Digest, info: PolicyInfo, dir: Direction, i: nat)
    requires i < |InfoRules(info, dir)|
    ensures var r := InfoRules(info, dir)[i];
            var ops := PodPeerOps(d, info, dir, i, r);
            && Serve(d, info, ops)
            && (r.peerIPs != [] ==> UseFor(d, info, Pods(dir, i)) in ops)
            && forall j: nat :: r.peerIPs != [] && j < |r.namedPorts| ==> UseFor(d, info, Ports(dir, i, j)) in ops
  {
    var r := InfoRules(info, dir)[i];
    if r.peerIPs == [] {
      AppendsServe(d, info, CommentFor(PodPeers, info), dir, "", "", []);
    } else {
      var target, peer, comment := TargetSet(d, info, dir), PeerSet(d, info, dir, i), CommentFor(PodPeers, info);
      AppendsServe(d, info, comment, dir, target, peer, r.ports);
      AllNamedServe(d, info, comment, dir, i, peer);
      ServeOne(d, info, Pods(dir, i));
      hide Serve, PortOps, NamedOps, Between, TargetSet, PeerSet, Hosts, NamedSet;
      var use, ports, named := [UseFor(d, info, Pods(dir, i))], PortOps(comment, dir, target, peer, r.ports),
        NamedOps(d, info, comment, dir, i, peer, r.namedPorts);
      var rest := if r.ports == [] && r.namedPorts == []
        then [AppendOp(Between(comment, dir, target, peer, ANY_PORT))] else [];
      assert PodPeerOps(d, info, dir, i, r) == use + ports + named + rest;
      ServeConcat(d, info, use, ports);
      ServeConcat(d, info, use + ports, named);
      ServeConcat(d, info, use + ports + named, rest);
    }
  }

  lemma AllPeersServe(d: Digest, info: PolicyInfo, dir: Direction, i: nat)
    requires i < |InfoRules(info, dir)|
    ensures var r := InfoRules(info, dir)[i];
            var ops := AllPeersOps(d, info, dir, i, r);
            && Serve(d, info, ops)
            && forall j: nat :: dir == Ingress && r.matchAllPeers && !r.matchAllPorts && j < |r.namedPorts| ==>
                 UseFor(d, info, Ports(dir, i, j)) in ops
  {
    var r, target := InfoRules(info, dir)[i], TargetSet(d, info, dir);
    var comment := CommentFor(if dir == Ingress then AllSources else AllDestinations, info);
    AppendsServe(d, info, comment, dir, target, "", r.ports);
    if r.matchAllPeers && !r.matchAllPorts && dir == Ingress {
      AllNamedServe(d, info, comment, dir, i, "");
      hide Serve, PortOps, NamedOps, TargetSet, Hosts, NamedSet;
      ServeConcat(d, info, PortOps(comment, dir, target, "", r.ports),
                  NamedOps(d, info, comment, dir, i, "", r.namedPorts));
    }
  }

  lemma BlocksServe(d: Digest, info: PolicyInfo, dir: Direction, i: nat)
    requires i < |InfoRules(info, dir)|
    ensures var r := InfoRules(info, dir)[i];
            var ops := BlockPeerOps(d, info, dir, i, r);
            && Serve(d, info, ops)
            && (r.blocks != [] ==> UseFor(d, info, Blocks(dir, i)) in ops)
            && forall j: nat :: dir == Ingress && r.blocks != [] && !r.matchAllPorts && j < |r.namedPorts| ==>
                 UseFor(d, info, Ports(dir, i, j)) in ops
  {
    var r, target, peer := InfoRules(info, dir)[i], TargetSet(d, info, dir), BlockSet(d, info, dir, i);
    var comment := CommentFor(if dir == Ingress then SourceBlocks else DestinationBlocks, info);
    AppendsServe(d, info, comment, dir, target, peer, r.ports);
    if r.blocks != [] {
      ServeOne(d, info, Blocks(dir, i));
      var named := if dir == Ingress then NamedOps(d, info, comment, dir, i, peer, r.namedPorts) else [];
      if dir == Ingress && !r.matchAllPorts {
        AllNamedServe(d, info, comment, dir, i, peer);
      }
      hide Serve, PortOps, NamedOps, TargetSet, BlockSet, Between, Nets, Hosts, NamedSet;
      var use, ports := [UseFor(d, info, Blocks(dir, i))], PortOps(comment, dir, target, peer, r.ports);
      if r.matchAllPorts {
        ServeConcat(d, info, use, [AppendOp(Between(comment, dir, target, peer, ANY_PORT))]);
      } else {
        assert BlockPeerOps(d, info, dir, i, r) == use + (ports + named);
        ServeConcat(d, info, ports, named);
        ServeConcat(d, info, use, ports + named);
      }
    }
  }

  ghost predicate CoversRule(d: Digest, info: PolicyInfo, dir: Direction, i: nat, ops: seq<Op>) {
    forall u :: Used(info, u) && !u.Targets? && u.dir == dir && u.rule == i ==> UseFor(d, info, u) in ops
  }

  lemma RuleServes(d: Digest, info: PolicyInfo, dir: Direction, i: nat)
    requires i < |InfoRules(info, dir)|
    ensures Serve(d, info, RuleOps(d, info, dir, i, InfoRules(info, dir)[i]))
    ensures CoversRule(d, info, dir, i, RuleOps(d, info, dir, i, InfoRules(info, dir)[i]))
  {
    var r := InfoRules(info, dir)[i];
    PodsServe(d, info, dir, i);
    AllPeersServe(d, info, dir, i);
    BlocksServe(d, info, dir, i);
    hide Serve, PodPeerOps, AllPeersOps, BlockPeerOps, NameFor, EntriesFor;
    var a, b, c := PodPeerOps(d, info, dir, i, r), AllPeersOps(d, info, dir, i, r), BlockPeerOps(d, info, dir, i, r);
    ServeConcat(d, info, a, b);
    ServeConcat(d, info, a + b, c);
  }

  lemma {:induction false} FlattenServes(d: Digest, info: PolicyInfo, parts: seq<seq<Op>>)
    requires forall i :: 0 <= i < |parts| ==> Serve(d, info, parts[i])
    ensures Serve(d, info, Flatten(parts))
    ensures forall i, op :: 0 <= i < |parts| && op in parts[i] ==> op in Flatten(parts)
  {
    hide Serve;
    if parts != [] {
      var n := |parts| - 1;
      FlattenServes(d, info, parts[..n]);
      ServeConcat(d, info, Flatten(parts[..n]), parts[n]);
      assert forall i :: 0 <= i < n ==> parts[..n][i] == parts[i];
    } else {
      ServeNothing(d, info);
    }
  }

  lemma RulesServe(d: Digest, info: PolicyInfo, dir: Direction)
    ensures Serve(d, info, RulesOps(d, info, dir))
    ensures forall i: nat :: i < |InfoRules(info, dir)| ==> CoversRule(d, info, dir, i, RulesOps(d, info, dir))
  {
    hide Serve, RuleOps, UseFor;
    var rules := InfoRules(info, dir);
    var parts := seq(|rules|, i requires 0 <= i < |rules| => RuleOps(d, info, dir, i, rules[i]));
    forall i | 0 <= i < |parts|
      ensures Serve(d, info, parts[i]) && CoversRule(d, info, dir, i, parts[i])
    {
      RuleServes(d, info, dir, i);
    }
    FlattenServes(d, info, parts);
    forall i: nat | i < |rules|
      ensures CoversRule(d, info, dir, i, RulesOps(d, info, dir))
    {
      assert CoversRule(d, info, dir, i, parts[i]);
    }
  }

  function Head(d: Digest, info: PolicyInfo): seq<Op> {
    var dst, src := TargetSet(d, info, Ingress), TargetSet(d, info, Egress);
    [CreateOp(dst, IpKind), UseOp(src, IpKind, Hosts(info.targets)), UseOp(dst, IpKind, Hosts(info.targets))]
  }

  lemma HeadServes(d: Digest, info: PolicyInfo)
    ensures Serve(d, info, Head(d, info))
    ensures forall u: SetUse :: u.Targets? ==> UseFor(d, info, u) in Head(d, info)
  {
    hide TargetSet, Hosts;
    var head := Head(d, info);
    assert head[1] == UseFor(d, info, Targets(Egress)) && head[2] == UseFor(d, info, Targets(Ingress));
    assert Does(d, info, Targets(Ingress), head[0]) && Does(d, info, Targets(Egress), head[1]) &&
      Does(d, info, Targets(Ingress), head[2]);
    forall u: SetUse | u.Targets?
      ensures UseFor(d, info, u) in head
    {
      assert u.dir == Ingress || u.dir == Egress;
      assert u == Targets(u.dir);
    }
  }

  /** The set commands of a policy are those of its uses, with these contents. */
  lemma PolicyServes(d: Digest, info: PolicyInfo)
    ensures Serve(d, info, PolicyOps(d, info))
    ensures forall u :: Used(info, u) ==> UseFor(d, info, u) in PolicyOps(d, info)
  {
    HeadServes(d, info);
    RulesServe(d, info, Ingress);
    RulesServe(d, info, Egress);
    var head, a, b := Head(d, info), RulesOps(d, info, Ingress), RulesOps(d, info, Egress);
    assert PolicyOps(d, info) == head + a + b;
    hide Serve, RulesOps, UseFor, Head, PolicyOps;
    ServeConcat(d, info, head, a);
    ServeConcat(d, info, head + a, b);
    forall u | Used(info, u)
      ensures UseFor(d, info, u) in head + a + b
    {
      if !u.Targets? {
        assert CoversRule(d, info, u.dir, u.rule, RulesOps(d, info, u.dir));
        assert UseFor(d, info, u) in a || UseFor(d, info, u) in b;
      }
    }
  }

  // Which names coincide.

  /** The texts that the names of the sets of these policies are digests of. */
  ghost function SetTexts(infos: seq<PolicyInfo>): iset<string> {
    iset i, u | 0 <= i < |infos| && Used(infos[i], u) :: TextFor(infos[i], u)
  }

  lemma UsedText(infos: seq<PolicyInfo>, i: nat, u: SetUse)
    requires i < |infos| && Used(infos[i], u)
    ensures TextFor(infos[i], u) in SetTexts(infos)
  {
  }

  lemma SameSet(d: Digest, infos: seq<PolicyInfo>, i: nat, u: SetUse, k: nat, v: SetUse)
    requires NoCollision(d, SetTexts(infos)) && i < |infos| && k < |infos| && Used(infos[i], u) && Used(infos[k], v)
    ensures NameFor(d, infos[i], u) == NameFor(d, infos[k], v) <==>
              PrefixFor(u) == PrefixFor(v) && TextFor(infos[i], u) == TextFor(infos[k], v)
  {
    UsedText(infos, i, u);
    UsedText(infos, k, v);
    NamedByText(d, infos[i], u);
    NamedByText(d, infos[k], v);
    hide NameFor, TextFor, Used, NoCollision, SetTexts;
    SameName(d, SetTexts(infos), PrefixFor(u), TextFor(infos[i], u), PrefixFor(v), TextFor(infos[k], v));
  }

  /**
   Two sets of one policy share a name exactly when they are one set, or hold named ports of rules of one
   direction whose numerals, of rule and port, run together to the same digits.
   */
  lemma SetsOfPolicy(d: Digest, info: PolicyInfo, u: SetUse, v: SetUse)
    requires NoCollision(d, SetTexts([info])) && Used(info, u) && Used(info, v)
    ensures NameFor(d, info, u) == NameFor(d, info, v) <==>
            || u == v
            || (u.Ports? && v.Ports? && u.dir == v.dir && Itoa(u.rule) + Itoa(u.port) == Itoa(v.rule) + Itoa(v.port))
  {
    SameSet(d, [info], 0, u, 0, v);
    TextsAlike(info, u, v);
    hide NameFor, TextFor, Used, NoCollision, SetTexts;
  }

  /** Uses of one set agree on what it holds. */
  ghost predicate Agree(infos: seq<PolicyInfo>, i: nat, u: SetUse, k: nat, v: SetUse)
    requires i < |infos| && k < |infos| && Used(infos[i], u) && Used(infos[k], v)
  {
    PrefixFor(u) == PrefixFor(v) && TextFor(infos[i], u) == TextFor(infos[k], v) ==>
      KindFor(u) == KindFor(v) && EntriesFor(infos[i], u) == EntriesFor(infos[k], v)
  }

  ghost predicate TextsAgree(infos: seq<PolicyInfo>) {
    forall i: nat, u, k: nat, v :: i < |infos| && k < |infos| && Used(infos[i], u) && Used(infos[k], v) ==>
      Agree(infos, i, u, k, v)
  }

  lemma {:induction false} AllOpsFrom(d: Digest, infos: seq<PolicyInfo>, op: Op) returns (i: nat)
    requires op in AllOps(d, infos)
    ensures i < |infos| && op in PolicyOps(d, infos[i])
  {
    hide PolicyOps;
    var n := |infos| - 1;
    if op in PolicyOps(d, infos[n]) {
      i := n;
    } else {
      i := AllOpsFrom(d, infos[..n], op);
    }
  }

  lemma OpServes(d: Digest, infos: seq<PolicyInfo>, op: Op) returns (i: nat, u: SetUse)
    requires op in AllOps(d, infos) && !op.AppendOp?
    ensures i < |infos| && Does(d, infos[i], u, op)
  {
    i := AllOpsFrom(d, infos, op);
    PolicyServes(d, infos[i]);
    hide Does, PolicyOps, UseFor, Used, AllOps;
    u :| Does(d, infos[i], u, op);
  }

  lemma OpFor(d: Digest, infos: seq<PolicyInfo>, i: nat, u: SetUse)
    requires i < |infos| && Used(infos[i], u)
    ensures UseFor(d, infos[i], u) in AllOps(d, infos)
  {
    PolicyServes(d, infos[i]);
    AllOpsContain(d, infos, i);
  }

  lemma AgreeingOps(d: Digest, infos: seq<PolicyInfo>, a: Op, b: Op)
    requires NoCollision(d, SetTexts(infos)) && TextsAgree(infos)
    requires a in AllOps(d, infos) && b in AllOps(d, infos) && !a.AppendOp? && !b.AppendOp? && a.name == b.name
    ensures a.kind == b.kind && (a.UseOp? && b.UseOp? ==> a.entries == b.entries)
  {
    hide AllOps, NoCollision, SetTexts, NameFor, TextFor, EntriesFor, Used;
    var i, u := OpServes(d, infos, a);
    var k, v := OpServes(d, infos, b);
    SameSet(d, infos, i, u, k, v);
    assert Agree(infos, i, u, k, v);
  }

  /** The commands are coherent exactly when texts that coincide stand for the same contents. */
  lemma CoherentExactly(d: Digest, infos: seq<PolicyInfo>)
    requires NoCollision(d, SetTexts(infos))
    ensures Coherent(AllOps(d, infos)) <==> TextsAgree(infos)
  {
    hide AllOps, NoCollision, SetTexts, NameFor, TextFor, EntriesFor, Used, KindFor, PrefixFor;
    var ops := AllOps(d, infos);
    if TextsAgree(infos) {
      forall a, b | a in ops && b in ops && !a.AppendOp? && !b.AppendOp? && a.name == b.name
        ensures a.kind == b.kind && (a.UseOp? && b.UseOp? ==> a.entries == b.entries)
      {
        AgreeingOps(d, infos, a, b);
      }
    }
    if Coherent(ops) {
      forall i: nat, u, k: nat, v | i < |infos| && k < |infos| && Used(infos[i], u) && Used(infos[k], v)
        ensures Agree(infos, i, u, k, v)
      {
        OpFor(d, infos, i, u);
        OpFor(d, infos, k, v);
        SameSet(d, infos, i, u, k, v);
      }
    }
  }

  function AddressesOf(info: PolicyInfo, u: SetUse): seq<Addr>
    requires u.Ports? && Used(info, u)
  {
    InfoRules(info, u.dir)[u.rule].namedPorts[u.port].ips
  }

  /** Named ports with numerals that run together to the same digits lead to the same addresses. */
  ghost predicate Unambiguous(info: PolicyInfo) {
    forall u: SetUse, v: SetUse :: u.Ports? && v.Ports? && Used(info, u) && Used(info, v) && Alike(u, v) ==>
      AddressesOf(info, u) == AddressesOf(info, v)
  }

  lemma HostsInjective(a: seq<Addr>, b: seq<Addr>)
    ensures Hosts(a) == Hosts(b) <==> a == b
  {
    if Hosts(a) == Hosts(b) {
      assert |a| == |b|;
      forall i | 0 <= i < |a|
        ensures a[i] == b[i]
      {
        assert Hosts(a)[i] == Host(a[i]) && Hosts(b)[i] == Host(b[i]);
      }
    }
  }

  lemma AgreeInPolicy(infos: seq<PolicyInfo>, i: nat, u: SetUse, v: SetUse)
    requires i < |infos| && Used(infos[i], u) && Used(infos[i], v)
    ensures Agree(infos, i, u, i, v) <==>
            (u.Ports? && v.Ports? && Alike(u, v) ==> AddressesOf(infos[i], u) == AddressesOf(infos[i], v))
  {
    var info := infos[i];
    TextsAlike(info, u, v);
    hide TextFor;
    if u.Ports? && v.Ports? {
      HostsInjective(AddressesOf(info, u), AddressesOf(info, v));
    }
    hide Hosts, Nets, Alike;
  }

  /** The commands of one policy are coherent exactly when its named ports are unambiguous. */
  lemma PolicyCoherentExactly(d: Digest, info: PolicyInfo)
    requires NoCollision(d, SetTexts([info]))
    ensures Coherent(PolicyOps(d, info)) <==> Unambiguous(info)
  {
    hide NoCollision, SetTexts, Coherent, PolicyOps, Agree, Used, AddressesOf, Alike;
    var infos := [info];
    assert AllOps(d, infos) == PolicyOps(d, info) by {
      assert infos[..0] == [] && AllOps(d, []) == [];
      assert [] + PolicyOps(d, info) == PolicyOps(d, info);
    }
    CoherentExactly(d, infos);
    forall u, v | Used(info, u) && Used(info, v)
      ensures Agree(infos, 0, u, 0, v) <==>
              (u.Ports? && v.Ports? && Alike(u, v) ==> AddressesOf(info, u) == AddressesOf(info, v))
    {
      AgreeInPolicy(infos, 0, u, v);
    }
    assert TextsAgree(infos) <==> Unambiguous(info);
  }

  /** Ten rules in each direction are never too many. */
  lemma TenRulesUnambiguous(info: PolicyInfo)
    requires |info.ingress| <= 10 && |info.egress| <= 10
    ensures Unambiguous(info)
  {
    forall u: SetUse, v: SetUse | u.Ports? && v.Ports? && Used(info, u) && Used(info, v) && Alike(u, v)
      ensures u == v
    {
      hide Itoa;
      OneDigitRules(u.rule, u.port, v.rule, v.port);
    }
  }

  // Whole plans.

  /** Policies have texts of their own, and none that ends like a rule of another. */
  ghost predicate Separate(infos: seq<PolicyInfo>) {
    && (forall i, k :: 0 <= i < |infos| && 0 <= k < |infos| && i != k ==> BaseOf(infos[i]) != BaseOf(infos[k]))
    && forall i, k, v: SetUse :: 0 <= i < |infos| && 0 <= k < |infos| && Used(infos[k], v) && !v.Targets? ==>
         BaseOf(infos[i]) != TextFor(infos[k], v)
  }

  ghost predicate AllUnambiguous(infos: seq<PolicyInfo>) {
    forall i :: 0 <= i < |infos| ==> Unambiguous(infos[i])
  }

  lemma AgreeAcross(infos: seq<PolicyInfo>, i: nat, u: SetUse, k: nat, v: SetUse)
    requires Separate(infos) && i < |infos| && k < |infos| && i != k && Used(infos[i], u) && Used(infos[k], v)
    ensures TextFor(infos[i], u) != TextFor(infos[k], v)
  {
    hide Used, TailFor, WithTail;
    if TextFor(infos[i], u) == TextFor(infos[k], v) {
      TextsApart(infos[i], infos[k], u, v);
    }
  }

  /** The commands of separate policies with unambiguous ports are coherent. */
  lemma SeparateCoherent(d: Digest, infos: seq<PolicyInfo>)
    requires NoCollision(d, SetTexts(infos)) && Separate(infos) && AllUnambiguous(infos)
    ensures Coherent(AllOps(d, infos))
  {
    hide NoCollision, SetTexts, Coherent, AllOps, Used, AddressesOf, Alike, Separate;
    forall i: nat, u, k: nat, v | i < |infos| && k < |infos| && Used(infos[i], u) && Used(infos[k], v)
      ensures Agree(infos, i, u, k, v)
    {
      if i == k {
        AgreeInPolicy(infos, i, u, v);
        assert Unambiguous(infos[i]);
      } else {
        AgreeAcross(infos, i, u, k, v);
      }
    }
    hide Agree;
    CoherentExactly(d, infos);
  }

  ghost function PolicyTexts(infos: seq<PolicyInfo>, version: string): iset<string> {
    iset i | 0 <= i < |infos| :: BaseOf(infos[i]) + version
  }

  /** Policies get different chains exactly when their namespaces and names do not run together to one text. */
  lemma PolicyChainsExactly(d: Digest, infos: seq<PolicyInfo>, version: string)
    requires NoCollision(d, PolicyTexts(infos, version))
    ensures DistinctPolicyChains(d, infos, version) <==>
            forall i, k :: 0 <= i < k < |infos| ==> BaseOf(infos[i]) != BaseOf(infos[k])
  {
    forall i, k | 0 <= i < k < |infos|
      ensures PolicyChainOf(d, infos[i], version) == PolicyChainOf(d, infos[k], version) <==>
              BaseOf(infos[i]) == BaseOf(infos[k])
    {
      var a, b := infos[i], infos[k];
      assert BaseOf(a) + version in PolicyTexts(infos, version) && BaseOf(b) + version in PolicyTexts(infos, version);
      NamesCollide(d, a.namespace, a.name, b.namespace, b.name, version, 0, 0);
    }
  }

  function PodText(pod: PodInfo): string {
    pod.namespace + pod.name
  }

  ghost function PodTexts(ins: map<Addr, PodInfo>, outs: map<Addr, PodInfo>, version: string): iset<string> {
    iset p | p in ins.Values + outs.Values :: PodText(p) + version
  }

  /** Pod chains coincide exactly when namespace, name and version run together to one text. */
  lemma PodChainsAlike(d: Digest, p: PodInfo, version: string, q: PodInfo, version': string)
    requires !CollidesOn(d, PodText(p) + version, PodText(q) + version')
    ensures PodChainOf(d, p, version) == PodChainOf(d, q, version') <==>
            PodText(p) + version == PodText(q) + version'
  {
    var x, y := d(PodText(p) + version), d(PodText(q) + version');
    assert (POD_PREFIX + x)[|POD_PREFIX|..] == x && (POD_PREFIX + y)[|POD_PREFIX|..] == y;
  }

  lemma PolicyChainsAlike(d: Digest, a: PolicyInfo, version: string, b: PolicyInfo, version': string)
    requires !CollidesOn(d, BaseOf(a) + version, BaseOf(b) + version')
    ensures PolicyChainOf(d, a, version) == PolicyChainOf(d, b, version') <==>
            BaseOf(a) + version == BaseOf(b) + version'
  {
    var x, y := d(BaseOf(a) + version), d(BaseOf(b) + version');
    assert (POLICY_PREFIX + x)[|POLICY_PREFIX|..] == x && (POLICY_PREFIX + y)[|POLICY_PREFIX|..] == y;
  }

  ghost predicate DistinctPods(ins: map<Addr, PodInfo>, outs: map<Addr, PodInfo>) {
    forall p, q :: p in ins.Values + outs.Values && q in ins.Values + outs.Values && p != q ==> PodText(p) != PodText(q)
  }

  lemma PodChainsExactly(d: Digest, ins: map<Addr, PodInfo>, outs: map<Addr, PodInfo>, version: string)
    requires NoCollision(d, PodTexts(ins, outs, version))
    ensures InjectivePods(d, ins, outs, version) <==> DistinctPods(ins, outs)
  {
    hide PodText, PodChainOf, CollidesOn;
    forall p, q | p in ins.Values + outs.Values && q in ins.Values + outs.Values
      ensures PodChainOf(d, p, version) == PodChainOf(d, q, version) <==> PodText(p) == PodText(q)
    {
      assert PodText(p) + version in PodTexts(ins, outs, version);
      assert PodText(q) + version in PodTexts(ins, outs, version);
      PodChainsAlike(d, p, version, q, version);
      if PodText(p) + version == PodText(q) + version {
        SameEnds(PodText(p), version, PodText(q), version);
      }
    }
  }
}
