/** Which sets the compiled commands declare, and that the rules refer to no others. */
module CompileSets {
  import opened Netfilter
  import opened IpBlocks
  import opened Kernel
  import opened Text
  import opened Naming
  import opened Policies
  import opened Compile

  /** The digest is cut to 16 characters. */
  ghost predicate ValidDigest(d: Digest) {
    forall s :: |d(s)| == 16
  }

  const SET_NAME_LENGTH := 25

  predicate IsSetName(n: string) {
    |n| == SET_NAME_LENGTH && IsPolicySet(n)
  }

  ghost function Declared(ops: seq<Op>): iset<string> {
    iset op | op in ops && !op.AppendOp? :: op.name
  }

  ghost predicate TidyOp(op: Op, names: iset<string>) {
    match op
    case AppendOp(r) => r.target == Accept && forall n :: n in SetsOf(r) ==> n in names
    case CreateOp(n, _) => IsSetName(n)
    case UseOp(n, _, _) => IsSetName(n)
  }

  /** Every command is tidy when the sets that earlier ones declare are added to the names. */
  ghost predicate Tidy(ops: seq<Op>, names: iset<string>) {
    ops == [] || (var init := ops[..|ops| - 1]; Tidy(init, names) && TidyOp(ops[|ops| - 1], names + Declared(init)))
  }

  lemma DeclaredConcat(a: seq<Op>, b: seq<Op>)
    ensures Declared(a + b) == Declared(a) + Declared(b)
  {
    assert forall op :: op in a + b <==> op in a || op in b;
  }

  lemma {:induction false} TidyConcat(a: seq<Op>, b: seq<Op>, names: iset<string>)
    ensures Tidy(a + b, names) <==> Tidy(a, names) && Tidy(b, names + Declared(a))
    ensures Declared(a + b) == Declared(a) + Declared(b)
    decreases |b|
  {
    DeclaredConcat(a, b);
    if b == [] {
      assert a + b == a;
    } else {
      var init := b[..|b| - 1];
      TidyConcat(a, init, names);
      assert (a + b)[..|a + b| - 1] == a + init && (a + b)[|a + b| - 1] == b[|b| - 1];
      assert names + Declared(a + init) == names + Declared(a) + Declared(init);
      hide Declared, TidyOp;
    }
  }

  lemma TidyOpMore(op: Op, names: iset<string>, more: iset<string>)
    requires names <= more && TidyOp(op, names)
    ensures TidyOp(op, more)
  {
  }

  lemma {:induction false} TidyMore(ops: seq<Op>, names: iset<string>, more: iset<string>)
    requires names <= more && Tidy(ops, names)
    ensures Tidy(ops, more)
  {
    if ops != [] {
      var init := ops[..|ops| - 1];
      TidyMore(init, names, more);
      TidyOpMore(ops[|ops| - 1], names + Declared(init), more + Declared(init));
    }
  }

  /** Commands that need nothing of each other. */
  lemma {:induction false} AllTidy(ops: seq<Op>, names: iset<string>)
    requires forall op :: op in ops ==> TidyOp(op, names)
    ensures Tidy(ops, names)
  {
    if ops != [] {
      var init := ops[..|ops| - 1];
      assert forall op :: op in init ==> op in ops;
      AllTidy(init, names);
      assert ops[|ops| - 1] in ops;
      TidyOpMore(ops[|ops| - 1], names, names + Declared(init));
    }
  }

  /** A command of a tidy list refers only to sets that the list declares. */
  lemma {:induction false} TidyMember(ops: seq<Op>, names: iset<string>, i: nat)
    requires Tidy(ops, names) && i < |ops|
    ensures TidyOp(ops[i], names + Declared(ops[..i])) && TidyOp(ops[i], names + Declared(ops))
  {
    var init := ops[..|ops| - 1];
    if i < |init| {
      TidyMember(init, names, i);
      assert init[..i] == ops[..i];
    }
    assert ops == ops[..i] + ops[i..];
    DeclaredConcat(ops[..i], ops[i..]);
    TidyOpMore(ops[i], names + Declared(ops[..i]), names + Declared(ops));
  }

  lemma TidyEach(ops: seq<Op>)
    requires Tidy(ops, iset{})
    ensures forall op :: op in ops ==> TidyOp(op, Declared(ops))
  {
    forall op | op in ops
      ensures TidyOp(op, Declared(ops))
    {
      var i :| 0 <= i < |ops| && ops[i] == op;
      TidyMember(ops, iset{}, i);
      assert iset{} + Declared(ops) == Declared(ops);
    }
  }

  lemma PolicyRuleSets(comment: Comment, src: string, dst: string, m: PortMatch)
    ensures SetsOf(PolicyRule(comment, src, dst, m)) <= {src, dst}
    ensures "" !in SetsOf(PolicyRule(comment, src, dst, m))
  {
    var conds := PolicyRule(comment, src, dst, m).conds;
    assert forall c :: c in conds ==>
      (src != "" && c == FromSet(src)) || (dst != "" && c == ToSet(dst)) || c == Proto(m.protocol) ||
        c == DPort(m.port);
  }

  lemma SourceName(x: string)
    requires |x| == 16
    ensures IsSetName(SOURCE_PREFIX + x)
  {}

  lemma DestinationName(x: string)
    requires |x| == 16
    ensures IsSetName(DESTINATION_PREFIX + x)
  {}

  lemma TargetName(d: Digest, info: PolicyInfo, dir: Direction)
    requires ValidDigest(d)
    ensures IsSetName(TargetSet(d, info, dir))
  {
    SourceName(d(info.namespace + info.name));
    DestinationName(d(info.namespace + info.name));
  }

  lemma PeerName(d: Digest, info: PolicyInfo, dir: Direction, i: nat)
    requires ValidDigest(d)
    ensures IsSetName(PeerSet(d, info, dir, i))
  {
    SourceName(d(info.namespace + info.name + "ingressrule" + Itoa(i) + "pod"));
    DestinationName(d(info.namespace + info.name + "egressrule" + Itoa(i) + "pod"));
  }

  lemma BlockName(d: Digest, info: PolicyInfo, dir: Direction, i: nat)
    requires ValidDigest(d)
    ensures IsSetName(BlockSet(d, info, dir, i))
  {
    SourceName(d(info.namespace + info.name + "ingressrule" + Itoa(i) + "ipblock"));
    DestinationName(d(info.namespace + info.name + "egressrule" + Itoa(i) + "ipblock"));
  }

  lemma NamedName(d: Digest, info: PolicyInfo, dir: Direction, i: nat, j: nat)
    requires ValidDigest(d)
    ensures IsSetName(NamedSet(d, info, dir, i, j))
  {
    DestinationName(d(info.namespace + info.name + "ingressrule" + Itoa(i) + Itoa(j) + "namedport"));
    DestinationName(d(info.namespace + info.name + "egressrule" + Itoa(i) + Itoa(j) + "namedport"));
  }

  lemma AppendTidy(comment: Comment, src: string, dst: string, m: PortMatch, names: iset<string>)
    requires src == "" || src in names
    requires dst == "" || dst in names
    ensures TidyOp(AppendOp(PolicyRule(comment, src, dst, m)), names)
    ensures Tidy([AppendOp(PolicyRule(comment, src, dst, m))], names)
  {
    PolicyRuleSets(comment, src, dst, m);
    AllTidy([AppendOp(PolicyRule(comment, src, dst, m))], names);
  }

  lemma UseTidy(op: Op, names: iset<string>)
    requires !op.AppendOp? && IsSetName(op.name)
    ensures Tidy([op], names) && Declared([op]) == iset{op.name}
  {
    AllTidy([op], names);
    assert op in [op];
  }

  lemma PortOpsTidy(comment: Comment, dir: Direction, target: string, peer: string, ports: seq<PortMatch>,
                    names: iset<string>)
    requires target in names && (peer == "" || peer in names)
    ensures Tidy(PortOps(comment, dir, target, peer, ports), names)
  {
    var ops := PortOps(comment, dir, target, peer, ports);
    forall op | op in ops
      ensures TidyOp(op, names)
    {
      var k :| 0 <= k < |ports| && ops[k] == op;
      AppendTidy(comment, peer, target, ports[k], names);
      AppendTidy(comment, target, peer, ports[k], names);
    }
    AllTidy(ops, names);
  }

  lemma {:induction false} NamedOpsTidy(d: Digest, info: PolicyInfo, comment: Comment, dir: Direction, i: nat,
                                        peer: string, eps: seq<EndPoints>, names: iset<string>)
    requires ValidDigest(d)
    requires TargetSet(d, info, dir) in names && (peer == "" || peer in names)
    ensures Tidy(NamedOps(d, info, comment, dir, i, peer, eps), names)
  {
    if eps != [] {
      var j := |eps| - 1;
      var name := NamedSet(d, info, dir, i, j);
      var front := NamedOps(d, info, comment, dir, i, peer, eps[..j]);
      var rule := ToNamed(comment, dir, TargetSet(d, info, dir), peer, name, eps[j]);
      var use, append := UseOp(name, IpKind, Hosts(eps[j].ips)), AppendOp(rule);
      NamedOpsTidy(d, info, comment, dir, i, peer, eps[..j], names);
      NamedName(d, info, dir, i, j);
      UseTidy(use, names + Declared(front));
      AppendTidy(comment, NamedSource(d, info, dir, peer), name, PortMatch(eps[j].protocol, eps[j].port),
                 names + Declared(front) + iset{name});
      TidyConcat([use], [append], names + Declared(front));
      TidyConcat(front, [use] + [append], names);
      assert [use] + [append] == [use, append];
    }
  }

  /** Two tidy lists in a row are tidy. */
  lemma TidyAppend(a: seq<Op>, b: seq<Op>, names: iset<string>)
    requires Tidy(a, names) && Tidy(b, names)
    ensures Tidy(a + b, names)
  {
    TidyMore(b, names, names + Declared(a));
    TidyConcat(a, b, names);
  }

  lemma TidyNothing(names: iset<string>)
    ensures Tidy([], names)
  {
  }

  lemma BetweenTidy(comment: Comment, dir: Direction, target: string, peer: string, m: PortMatch, names: iset<string>)
    requires target in names && (peer == "" || peer in names)
    ensures Tidy([AppendOp(Between(comment, dir, target, peer, m))], names) && Tidy([], names)
  {
    hide PolicyRule, TidyOp;
    AppendTidy(comment, peer, target, m, names);
    AppendTidy(comment, target, peer, m, names);
  }

  lemma PodPeersTidy(d: Digest, info: PolicyInfo, dir: Direction, i: nat, r: RuleInfo, names: iset<string>)
    requires ValidDigest(d) && TargetSet(d, info, dir) in names
    ensures Tidy(PodPeerOps(d, info, dir, i, r), names)
  {
    if r.peerIPs == [] {
      TidyNothing(names);
    } else {
      hide TidyOp, Declared, PortOps, NamedOps, Tidy, Between, TargetSet, PeerSet, ValidDigest;
      var target, peer, comment := TargetSet(d, info, dir), PeerSet(d, info, dir, i), CommentFor(PodPeers, info);
      var use := UseOp(peer, IpKind, Hosts(r.peerIPs));
      var ports := PortOps(comment, dir, target, peer, r.ports);
      var named := NamedOps(d, info, comment, dir, i, peer, r.namedPorts);
      var rest := if r.ports == [] && r.namedPorts == []
        then [AppendOp(Between(comment, dir, target, peer, ANY_PORT))] else [];
      assert PodPeerOps(d, info, dir, i, r) == [use] + (ports + named + rest);
      PeerName(d, info, dir, i);
      UseTidy(use, names);
      var known := names + iset{peer};
      PortOpsTidy(comment, dir, target, peer, r.ports, known);
      NamedOpsTidy(d, info, comment, dir, i, peer, r.namedPorts, known);
      BetweenTidy(comment, dir, target, peer, ANY_PORT, known);
      TidyAppend(ports, named, known);
      TidyAppend(ports + named, rest, known);
      TidyConcat([use], ports + named + rest, names);
    }
  }

  lemma AllPeersTidy(d: Digest, info: PolicyInfo, dir: Direction, i: nat, r: RuleInfo, names: iset<string>)
    requires ValidDigest(d) && TargetSet(d, info, dir) in names
    ensures Tidy(AllPeersOps(d, info, dir, i, r), names)
  {
    if r.matchAllPeers {
      var target := TargetSet(d, info, dir);
      var comment := CommentFor(if dir == Ingress then AllSources else AllDestinations, info);
      if r.matchAllPorts {
        AppendTidy(comment, "", target, ANY_PORT, names);
        AppendTidy(comment, target, "", ANY_PORT, names);
      } else {
        var named := if dir == Ingress then NamedOps(d, info, comment, dir, i, "", r.namedPorts) else [];
        PortOpsTidy(comment, dir, target, "", r.ports, names);
        if dir == Ingress {
          NamedOpsTidy(d, info, comment, dir, i, "", r.namedPorts, names);
        }
        TidyAppend(PortOps(comment, dir, target, "", r.ports), named, names);
      }
    }
  }

  lemma BlockPeersTidy(d: Digest, info: PolicyInfo, dir: Direction, i: nat, r: RuleInfo, names: iset<string>)
    requires ValidDigest(d) && TargetSet(d, info, dir) in names
    ensures Tidy(BlockPeerOps(d, info, dir, i, r), names)
  {
    if r.blocks != [] {
      var target, peer := TargetSet(d, info, dir), BlockSet(d, info, dir, i);
      var comment := CommentFor(if dir == Ingress then SourceBlocks else DestinationBlocks, info);
      var use := UseOp(peer, NetKind, Nets(r.blocks));
      var named := if dir == Ingress then NamedOps(d, info, comment, dir, i, peer, r.namedPorts) else [];
      var ports := PortOps(comment, dir, target, peer, r.ports);
      var rest := if r.matchAllPorts then [AppendOp(Between(comment, dir, target, peer, ANY_PORT))] else ports + named;
      assert BlockPeerOps(d, info, dir, i, r) == [use] + rest;
      BlockName(d, info, dir, i);
      UseTidy(use, names);
      var known := names + iset{peer};
      AppendTidy(comment, peer, target, ANY_PORT, known);
      AppendTidy(comment, target, peer, ANY_PORT, known);
      PortOpsTidy(comment, dir, target, peer, r.ports, known);
      if dir == Ingress {
        NamedOpsTidy(d, info, comment, dir, i, peer, r.namedPorts, known);
      }
      hide TidyOp, Declared, PortOps, NamedOps;
      TidyAppend(ports, named, known);
      TidyConcat([use], rest, names);
    }
  }

  lemma {:induction false} FlattenTidy(parts: seq<seq<Op>>, names: iset<string>)
    requires forall i :: 0 <= i < |parts| ==> Tidy(parts[i], names)
    ensures Tidy(Flatten(parts), names)
  {
    if parts != [] {
      var n := |parts| - 1;
      FlattenTidy(parts[..n], names);
      TidyAppend(Flatten(parts[..n]), parts[n], names);
    }
  }

  lemma RuleOpsTidy(d: Digest, info: PolicyInfo, dir: Direction, i: nat, r: RuleInfo, names: iset<string>)
    requires ValidDigest(d) && TargetSet(d, info, dir) in names
    ensures Tidy(RuleOps(d, info, dir, i, r), names)
  {
    var a, b, c := PodPeerOps(d, info, dir, i, r), AllPeersOps(d, info, dir, i, r), BlockPeerOps(d, info, dir, i, r);
    PodPeersTidy(d, info, dir, i, r, names);
    AllPeersTidy(d, info, dir, i, r, names);
    BlockPeersTidy(d, info, dir, i, r, names);
    TidyAppend(a, b, names);
    TidyAppend(a + b, c, names);
  }

  lemma RulesOpsTidy(d: Digest, info: PolicyInfo, dir: Direction, names: iset<string>)
    requires ValidDigest(d) && TargetSet(d, info, dir) in names
    ensures Tidy(RulesOps(d, info, dir), names)
  {
    var rules := InfoRules(info, dir);
    var parts := seq(|rules|, i requires 0 <= i < |rules| => RuleOps(d, info, dir, i, rules[i]));
    forall i | 0 <= i < |parts|
      ensures Tidy(parts[i], names)
    {
      RuleOpsTidy(d, info, dir, i, rules[i], names);
    }
    FlattenTidy(parts, names);
  }

  lemma HeadTidy(head: seq<Op>)
    requires forall op :: op in head ==> !op.AppendOp? && IsSetName(op.name)
    ensures Tidy(head, iset{}) && forall op :: op in head ==> op.name in Declared(head)
  {
    hide IsSetName;
    AllTidy(head, iset{});
  }

  /** The rules of a policy accept, and refer only to sets that the policy has declared before. */
  lemma PolicyTidy(d: Digest, info: PolicyInfo)
    requires ValidDigest(d)
    ensures Tidy(PolicyOps(d, info), iset{})
  {
    hide TidyOp, Declared, RulesOps, TargetSet, IsSetName, Tidy;
    var dst, src := TargetSet(d, info, Ingress), TargetSet(d, info, Egress);
    var head := [CreateOp(dst, IpKind), UseOp(src, IpKind, Hosts(info.targets)),
                 UseOp(dst, IpKind, Hosts(info.targets))];
    var a, b := RulesOps(d, info, Ingress), RulesOps(d, info, Egress);
    TargetName(d, info, Ingress);
    TargetName(d, info, Egress);
    HeadTidy(head);
    assert head[0] in head && head[1] in head;
    var names := Declared(head);
    RulesOpsTidy(d, info, Ingress, names);
    RulesOpsTidy(d, info, Egress, names);
    TidyAppend(a, b, names);
    assert iset{} + names == names;
    TidyConcat(head, a + b, iset{});
    assert PolicyOps(d, info) == head + (a + b);
  }

  /** The entries of every refresh fit the set. */
  ghost predicate Fit(ops: seq<Op>) {
    forall op :: op in ops && op.UseOp? ==> AllFit(op.kind, op.entries)
  }

  lemma FitConcat(a: seq<Op>, b: seq<Op>)
    requires Fit(a) && Fit(b)
    ensures Fit(a + b)
  {
    assert forall op :: op in a + b <==> op in a || op in b;
  }

  lemma {:induction false} NamedOpsFit(d: Digest, info: PolicyInfo, comment: Comment, dir: Direction, i: nat,
                                       peer: string, eps: seq<EndPoints>)
    ensures Fit(NamedOps(d, info, comment, dir, i, peer, eps))
  {
    hide NamedSet, ToNamed, Hosts;
    if eps != [] {
      var j := |eps| - 1;
      NamedOpsFit(d, info, comment, dir, i, peer, eps[..j]);
      HostsMember(eps[j].ips, 0);
    }
  }

  lemma RuleOpsFit(d: Digest, info: PolicyInfo, dir: Direction, i: nat, r: RuleInfo)
    requires Storable(r.blocks)
    ensures Fit(RuleOps(d, info, dir, i, r))
  {
    hide NamedOps, Hosts, Nets, Storable, TargetSet, PeerSet, BlockSet, CommentFor, Between;
    HostsMember(r.peerIPs, 0);
    NetsLoaded(r.blocks);
    forall comment, peer
      ensures Fit(NamedOps(d, info, comment, dir, i, peer, r.namedPorts))
    {
      NamedOpsFit(d, info, comment, dir, i, peer, r.namedPorts);
    }
    var a, b, c := PodPeerOps(d, info, dir, i, r), AllPeersOps(d, info, dir, i, r), BlockPeerOps(d, info, dir, i, r);
    assert Fit(a);
    assert Fit(b);
    assert Fit(c);
    FitConcat(a, b);
    FitConcat(a + b, c);
  }

  lemma {:induction false} FlattenFit(parts: seq<seq<Op>>)
    requires forall i :: 0 <= i < |parts| ==> Fit(parts[i])
    ensures Fit(Flatten(parts))
  {
    if parts != [] {
      FlattenFit(parts[..|parts| - 1]);
      FitConcat(Flatten(parts[..|parts| - 1]), parts[|parts| - 1]);
    }
  }

  lemma RulesOpsFit(d: Digest, info: PolicyInfo, dir: Direction)
    requires WellFormedPolicy(info)
    ensures Fit(RulesOps(d, info, dir))
  {
    hide RuleOps, Fit;
    var rules := InfoRules(info, dir);
    var parts := seq(|rules|, i requires 0 <= i < |rules| => RuleOps(d, info, dir, i, rules[i]));
    forall i | 0 <= i < |parts|
      ensures Fit(parts[i])
    {
      RuleOpsFit(d, info, dir, i, rules[i]);
    }
    FlattenFit(parts);
  }

  /** Well-formed policies ask only for entries that their sets can hold. */
  lemma PolicyFit(d: Digest, info: PolicyInfo)
    requires WellFormedPolicy(info)
    ensures Fit(PolicyOps(d, info))
  {
    hide RulesOps, TargetSet, Hosts;
    HostsMember(info.targets, 0);
    var dst, src := TargetSet(d, info, Ingress), TargetSet(d, info, Egress);
    var head := [CreateOp(dst, IpKind), UseOp(src, IpKind, Hosts(info.targets)),
                 UseOp(dst, IpKind, Hosts(info.targets))];
    RulesOpsFit(d, info, Ingress);
    RulesOpsFit(d, info, Egress);
    FitConcat(head, RulesOps(d, info, Ingress));
    FitConcat(head + RulesOps(d, info, Ingress), RulesOps(d, info, Egress));
  }
}
