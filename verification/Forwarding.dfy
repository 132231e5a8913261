/**
 The verdict of the base chains. Each of them begins with the jumps to the chains of pods, those for
 egress before those for ingress, and a pod's chain decides every packet that it is given.
 */
module Forwarding {
  import opened Basics
  import opened Netfilter
  import opened Kernel
  import opened Naming
  import opened Policies
  import opened PodChains
  import opened Sync
  import opened SyncPods
  import opened Deletion
  import opened Cleanup
  import opened Enforcement

  /** Every rule of these that matches the packet jumps to this chain. */
  ghost predicate LeadsTo(rules: seq<Rule>, p: Packet, sets: Sets, c: string) {
    forall r :: r in rules && Matches(r, p, sets) ==> r.target == Jump(c)
  }

  /** Rules that lead to one deciding chain decide a packet as that chain does, if one of them matches. */
  lemma {:induction false} FrontDecides(front: seq<Rule>, rest: seq<Rule>, st: State, p: Packet, depth: nat, c: string)
    requires LeadsTo(front, p, st.sets, c) && depth > 0 && c in st.chains
    requires Run(st.chains[c], st, p, depth - 1) != Returned
    ensures Run(front + rest, st, p, depth) ==
            if exists r :: r in front && Matches(r, p, st.sets) then Run(st.chains[c], st, p, depth - 1)
            else Run(rest, st, p, depth)
  {
    hide Matches;
    if front == [] {
      assert front + rest == rest;
    } else {
      assert (front + rest)[1..] == front[1..] + rest && front[0] in front;
      if !Matches(front[0], p, st.sets) {
        FrontDecides(front[1..], rest, st, p, depth, c);
        assert forall r :: r in front <==> r == front[0] || r in front[1..];
      }
    }
  }

  lemma {:induction false} FrontPassed(front: seq<Rule>, rest: seq<Rule>, st: State, p: Packet, depth: nat)
    requires forall r :: r in front ==> !Matches(r, p, st.sets)
    ensures Run(front + rest, st, p, depth) == Run(rest, st, p, depth)
  {
    hide Matches;
    if front == [] {
      assert front + rest == rest;
    } else {
      assert (front + rest)[1..] == front[1..] + rest && front[0] in front;
      FrontPassed(front[1..], rest, st, p, depth);
    }
  }

  /** The end of a packet that a loop looks at. */
  function End(toPod: bool, p: Packet): Addr {
    if toPod then p.dst else p.src
  }

  /** A jump of a loop matches only packets of its pod, and leads to the chain of that pod. */
  lemma LoopJumpLeads(d: Digest, base: string, pods: map<Addr, PodInfo>, toPod: bool, version: string, r: Rule,
                      p: Packet, sets: Sets)
    requires Keyed(pods) && r in LoopJumps(d, base, pods, pods.Keys, toPod, version) && Matches(r, p, sets)
    ensures End(toPod, p) in pods && (base == FORWARD || toPod)
    ensures r.target == Jump(ChainAt(d, pods, End(toPod, p), version))
  {
    hide PodChainOf;
    var ip :| ip in pods && r in BaseJumps(base, toPod, pods[ip], ChainAt(d, pods, ip, version));
    assert r.conds == [Way(toPod, ip)] || r.conds == [Bridged, Way(toPod, ip)];
    assert Way(toPod, ip) in r.conds;
    assert Holds(Way(toPod, ip), p, sets);
  }

  lemma RoutedMatches(d: Digest, pods: map<Addr, PodInfo>, toPod: bool, version: string, p: Packet, sets: Sets)
    requires Keyed(pods) && End(toPod, p) in pods
    ensures Matches(Routed(toPod, pods[End(toPod, p)], ChainAt(d, pods, End(toPod, p), version)), p, sets)
  {
  }

  /** Behind the jumps of one loop, if the packet has a pod of the loop at its end, the chain of that pod decides. */
  lemma LoopVerdict(d: Digest, base: string, pods: map<Addr, PodInfo>, toPod: bool, version: string, before: seq<Rule>,
                    now: seq<Rule>, st: State, p: Packet, depth: nat)
    requires Keyed(pods) && Fronted(before, now, LoopJumps(d, base, pods, pods.Keys, toPod, version)) && depth > 0
    requires End(toPod, p) in pods && (base == FORWARD || toPod) ==>
               var c := ChainAt(d, pods, End(toPod, p), version);
               && Routed(toPod, pods[End(toPod, p)], c) in now && Routed(toPod, pods[End(toPod, p)], c) !in before
               && c in st.chains && Run(st.chains[c], st, p, depth - 1) != Returned
    ensures Run(now, st, p, depth) ==
            if End(toPod, p) in pods && (base == FORWARD || toPod) then
              Run(st.chains[ChainAt(d, pods, End(toPod, p), version)], st, p, depth - 1)
            else Run(before, st, p, depth)
  {
    hide Matches, LoopJumps, PodChainOf, Run;
    var front := now[..|now| - |before|];
    assert now == front + before;
    forall r | r in front && Matches(r, p, st.sets)
      ensures End(toPod, p) in pods && (base == FORWARD || toPod)
      ensures r.target == Jump(ChainAt(d, pods, End(toPod, p), version))
    {
      LoopJumpLeads(d, base, pods, toPod, version, r, p, st.sets);
    }
    if End(toPod, p) in pods && (base == FORWARD || toPod) {
      var c := ChainAt(d, pods, End(toPod, p), version);
      RoutedMatches(d, pods, toPod, version, p, st.sets);
      assert Routed(toPod, pods[End(toPod, p)], c) in front;
      FrontDecides(front, before, st, p, depth, c);
    } else {
      FrontPassed(front, before, st, p, depth);
    }
  }

  // What cleanup leaves of the structure.

  lemma FrontedCleared(before: seq<Rule>, now: seq<Rule>, front: iset<Rule>, stale: set<string>)
    requires Fronted(before, now, front) && forall r :: r in front ==> Names(r) !! stale
    ensures Fronted(Clear(before, stale), Clear(now, stale), front)
  {
    hide Names;
    var k := |now| - |before|;
    assert now == now[..k] + before;
    ClearConcat(now[..k], before, stale);
    ClearSame(now[..k], stale);
  }

  function PodChainsIn(chains: Chains): set<string> {
    set c | c in chains.Keys && IsPodChain(c)
  }

  /** What is left behind the jumps of a sync: the rules from before, without those to old pod chains if `listed`. */
  function OldRules(before: Chains, base: string, listed: bool): seq<Rule> {
    if listed then Clear(RulesIn(before, base), PodChainsIn(before)) else RulesIn(before, base)
  }

  lemma LoopJumpNames(d: Digest, base: string, pods: map<Addr, PodInfo>, toPod: bool, version: string, r: Rule)
    requires r in LoopJumps(d, base, pods, pods.Keys, toPod, version)
    ensures r.target.Jump? && r.target.chain in ChainsOf(d, pods, pods.Keys, version) && Names(r) == {r.target.chain}
    ensures r.comment.JumpFor? && r.comment.toPod == toPod
  {
    hide PodChainOf;
    var ip :| ip in pods && r in BaseJumps(base, toPod, pods[ip], ChainAt(d, pods, ip, version));
  }

  lemma ActiveNotStale(n: Chains, pods: set<string>)
    ensures StalePods(n, pods) !! pods
  {
  }

  /** The base chains before and after: in front the jumps of both loops, behind them what is left of the old rules. */
  lemma FrontsCleaned(d: Digest, a: Chains, n: Chains, b: Chains, ins: map<Addr, PodInfo>, outs: map<Addr, PodInfo>,
                      version: string, base: string, listed: bool)
    requires BothFronted(d, a, n, ins, outs, version) && (base == FORWARD || base == OUTPUT)
    requires if listed then BaseCleaned(n, b, ActivePods(d, ins, outs, version)) else b == n
    requires listed ==> StalePods(n, ActivePods(d, ins, outs, version)) == PodChainsIn(a)
    ensures base in b
    ensures FrontedTwice(OldRules(a, base, listed), b[base], LoopJumps(d, base, ins, ins.Keys, true, version),
                         LoopJumps(d, base, outs, outs.Keys, false, version))
  {
    hide Names, Clear, LoopJumps, Fronted, StalePods;
    var x, y := LoopJumps(d, base, ins, ins.Keys, true, version), LoopJumps(d, base, outs, outs.Keys, false, version);
    if listed {
      var pods := ActivePods(d, ins, outs, version);
      var stale := StalePods(n, pods);
      ActiveNotStale(n, pods);
      forall r | r in x || r in y
        ensures Names(r) !! stale
      {
        if r in x {
          LoopJumpNames(d, base, ins, true, version, r);
        } else {
          LoopJumpNames(d, base, outs, false, version, r);
        }
      }
      var mid :| Fronted(a[base], mid, x) && Fronted(mid, n[base], y);
      FrontedCleared(a[base], mid, x, stale);
      FrontedCleared(mid, n[base], y, stale);
      assert b[base] == Clear(n[base], stale);
    }
  }

  // The verdict.

  /** The verdict that is due to a packet from a pod, in the chain of that pod. */
  ghost function DueFrom(cl: Cluster, ins: map<Addr, PodInfo>, outs: map<Addr, PodInfo>, p: Packet): Verdict
    requires p.src in outs
  {
    Due(cl, p.src, p.src in ins && ins[p.src] == outs[p.src], p)
  }

  /** What FORWARD says: what the source's chain says if it has one, else the destination's, else the old rules. */
  ghost predicate ForwardDecided(st: State, cl: Cluster, ins: map<Addr, PodInfo>, outs: map<Addr, PodInfo>,
                                 rest: seq<Rule>) {
    FORWARD in st.chains && forall p, depth: nat :: depth > 1 ==>
      Run(st.chains[FORWARD], st, p, depth) ==
      if p.src in outs then DueFrom(cl, ins, outs, p)
      else if p.dst in ins then Due(cl, p.dst, true, p)
      else Run(rest, st, p, depth)
  }

  /** What OUTPUT says: what the destination's chain says if it has one, else the old rules. */
  ghost predicate OutputDecided(st: State, cl: Cluster, ins: map<Addr, PodInfo>, rest: seq<Rule>) {
    OUTPUT in st.chains && forall p, depth: nat :: depth > 1 ==>
      Run(st.chains[OUTPUT], st, p, depth) ==
      if p.dst in ins then Due(cl, p.dst, true, p) else Run(rest, st, p, depth)
  }

  /** No old rule jumps to a chain of this sync. */
  ghost predicate LeadsElsewhere(rules: seq<Rule>, pods: set<string>) {
    forall r :: r in rules && r.target.Jump? ==> r.target.chain !in pods
  }

  lemma OldLeadElsewhere(a: Chains, base: string, listed: bool, pods: set<string>)
    requires LeadsElsewhere(RulesIn(a, base), pods)
    ensures LeadsElsewhere(OldRules(a, base, listed), pods)
  {
    hide Names;
    ClearMembers(RulesIn(a, base), PodChainsIn(a));
  }

  lemma NotBehind(before: seq<Rule>, now: seq<Rule>, front: iset<Rule>, r: Rule)
    requires Fronted(before, now, front)
    ensures r in now && r !in front ==> r in before
    ensures r in now ==> r in before || r in front
    ensures r in before ==> r in now
  {
    var k := |now| - |before|;
    assert now == now[..k] + before;
  }

  /** Where the jumps of both loops are: each in its own front. */
  lemma RoutedWhere(d: Digest, base: string, ins: map<Addr, PodInfo>, outs: map<Addr, PodInfo>, version: string,
                    rest: seq<Rule>, mid: seq<Rule>, now: seq<Rule>, r: Rule)
    requires Fronted(rest, mid, LoopJumps(d, base, ins, ins.Keys, true, version))
    requires Fronted(mid, now, LoopJumps(d, base, outs, outs.Keys, false, version))
    requires LeadsElsewhere(rest, ActivePods(d, ins, outs, version)) && r in now && r.comment.JumpFor?
    requires r.target.Jump? && r.target.chain in ActivePods(d, ins, outs, version)
    ensures r !in rest && (r.comment.toPod ==> r in mid) && (!r.comment.toPod ==> r !in mid)
  {
    hide LoopJumps, Names, Fronted, PodChainOf;
    var x, y := LoopJumps(d, base, ins, ins.Keys, true, version), LoopJumps(d, base, outs, outs.Keys, false, version);
    NotBehind(rest, mid, x, r);
    NotBehind(mid, now, y, r);
    if r in x {
      LoopJumpNames(d, base, ins, true, version, r);
    }
    if r in y {
      LoopJumpNames(d, base, outs, false, version, r);
    }
  }

  lemma DueDecides(cl: Cluster, ip: Addr, ingress: bool, p: Packet)
    ensures Due(cl, ip, ingress, p) != Returned
  {
  }

  lemma BaseVerdict(d: Digest, base: string, st: State, cl: Cluster, ins: map<Addr, PodInfo>, outs: map<Addr, PodInfo>,
                    version: string, rest: seq<Rule>, p: Packet, depth: nat)
    requires Keyed(ins) && Keyed(outs) && depth > 1 && (base == FORWARD || base == OUTPUT) && base in st.chains
    requires FrontedTwice(rest, st.chains[base], LoopJumps(d, base, ins, ins.Keys, true, version),
                          LoopJumps(d, base, outs, outs.Keys, false, version))
    requires LeadsElsewhere(rest, ActivePods(d, ins, outs, version))
    requires AllLinked(d, st.chains, ins, outs, version) && Enforced(d, st, cl, ins, outs, version)
    ensures Run(st.chains[base], st, p, depth) ==
            if base == FORWARD && p.src in outs then DueFrom(cl, ins, outs, p)
            else if p.dst in ins then Due(cl, p.dst, true, p)
            else Run(rest, st, p, depth)
  {
    hide LoopJumps, Run, PodChainOf, Due, LeadsElsewhere, Fronted;
    var now := st.chains[base];
    var mid :| Fronted(rest, mid, LoopJumps(d, base, ins, ins.Keys, true, version)) &&
               Fronted(mid, now, LoopJumps(d, base, outs, outs.Keys, false, version));
    if p.src in outs {
      var c := ChainAt(d, outs, p.src, version);
      assert c in ActivePods(d, ins, outs, version);
      assert VerdictAt(d, st, outs, p.src, version, p, depth - 1) == Some(DueFrom(cl, ins, outs, p));
      DueDecides(cl, p.src, p.src in ins && ins[p.src] == outs[p.src], p);
      if base == FORWARD {
        RoutedWhere(d, base, ins, outs, version, rest, mid, now, Routed(false, outs[p.src], c));
      }
    }
    LoopVerdict(d, base, outs, false, version, mid, now, st, p, depth);
    if p.dst in ins {
      var c := ChainAt(d, ins, p.dst, version);
      assert c in ActivePods(d, ins, outs, version);
      assert VerdictAt(d, st, ins, p.dst, version, p, depth - 1) == Some(Due(cl, p.dst, true, p));
      DueDecides(cl, p.dst, true, p);
      RoutedWhere(d, base, ins, outs, version, rest, mid, now, Routed(true, ins[p.dst], c));
    }
    LoopVerdict(d, base, ins, true, version, rest, mid, st, p, depth);
  }

  /** After a sync that enforces the policies, what the base chains say of every packet. */
  lemma BasesDecided(d: Digest, a: Chains, n: Chains, b: State, cl: Cluster, ins: map<Addr, PodInfo>,
                     outs: map<Addr, PodInfo>, version: string, listed: bool)
    requires Keyed(ins) && Keyed(outs) && BothFronted(d, a, n, ins, outs, version)
    requires if listed then BaseCleaned(n, b.chains, ActivePods(d, ins, outs, version)) else b.chains == n
    requires listed ==> StalePods(n, ActivePods(d, ins, outs, version)) == PodChainsIn(a)
    requires LeadsElsewhere(RulesIn(a, FORWARD), ActivePods(d, ins, outs, version))
    requires LeadsElsewhere(RulesIn(a, OUTPUT), ActivePods(d, ins, outs, version))
    requires AllLinked(d, b.chains, ins, outs, version) && Enforced(d, b, cl, ins, outs, version)
    ensures ForwardDecided(b, cl, ins, outs, OldRules(a, FORWARD, listed))
    ensures OutputDecided(b, cl, ins, OldRules(a, OUTPUT, listed))
  {
    hide LoopJumps, Run, PodChainOf, Due, LeadsElsewhere, FrontedTwice, BothFronted, AllLinked, Enforced, OldRules,
         ActivePods, BaseCleaned, DueFrom;
    assert FORWARD != OUTPUT;
    FrontsCleaned(d, a, n, b.chains, ins, outs, version, FORWARD, listed);
    FrontsCleaned(d, a, n, b.chains, ins, outs, version, OUTPUT, listed);
    OldLeadElsewhere(a, FORWARD, listed, ActivePods(d, ins, outs, version));
    OldLeadElsewhere(a, OUTPUT, listed, ActivePods(d, ins, outs, version));
    forall p, depth: nat | depth > 1
      ensures Run(b.chains[FORWARD], b, p, depth) ==
              if p.src in outs then DueFrom(cl, ins, outs, p)
              else if p.dst in ins then Due(cl, p.dst, true, p)
              else Run(OldRules(a, FORWARD, listed), b, p, depth)
      ensures Run(b.chains[OUTPUT], b, p, depth) ==
              if p.dst in ins then Due(cl, p.dst, true, p) else Run(OldRules(a, OUTPUT, listed), b, p, depth)
    {
      BaseVerdict(d, FORWARD, b, cl, ins, outs, version, OldRules(a, FORWARD, listed), p, depth);
      BaseVerdict(d, OUTPUT, b, cl, ins, outs, version, OldRules(a, OUTPUT, listed), p, depth);
    }
  }

  // Whether both ends of a packet have their say.

  /** Every chain that one of the packet's ends has accepts it. */
  ghost predicate BothAllow(cl: Cluster, ins: map<Addr, PodInfo>, outs: map<Addr, PodInfo>, p: Packet) {
    && (p.src in outs ==> DueFrom(cl, ins, outs, p) == Accepted)
    && (p.dst in ins ==> Due(cl, p.dst, true, p) == Accepted)
  }

  /** Both ends have a chain; the source's accepts the packet and the destination's would reject it. */
  ghost predicate Overruled(cl: Cluster, ins: set<Addr>, outs: set<Addr>, p: Packet) {
    && p.src in outs && p.dst in ins
    && Due(cl, p.src, false, p) == Accepted && Due(cl, p.dst, true, p) == Rejected
  }

  /**
   FORWARD treats a packet with a chain at one end as both ends say if and only if its source does
   not overrule its destination.
   */
  lemma ForwardExact(st: State, cl: Cluster, ins: map<Addr, PodInfo>, outs: map<Addr, PodInfo>, rest: seq<Rule>,
                     p: Packet, depth: nat)
    requires ForwardDecided(st, cl, ins, outs, rest) && depth > 1 && (p.src in outs || p.dst in ins)
    ensures Run(st.chains[FORWARD], st, p, depth) == (if BothAllow(cl, ins, outs, p) then Accepted else Rejected) <==>
            !Overruled(cl, ins.Keys, outs.Keys, p)
  {
    hide Run, SomePolicyPasses;
  }

  // Two pods of one node: all egress of the first is allowed, and no ingress of the second.

  const OPEN_EGRESS := Policy("ns", "open", map["role" := "a"], [Egress], None, Some([RuleSpec([], [])]))
  const NO_INGRESS := Policy("ns", "closed", map["role" := "b"], [Ingress], Some([]), None)

  function TwoPods(): Cluster {
    Cluster([POD_A, POD_B], [], [OPEN_EGRESS, NO_INGRESS])
  }

  lemma TargetsOfTwoPods(name: string, pol: Policy, ip: Addr)
    requires pol.namespace == "ns" && pol.podSelector == map["role" := name]
    ensures TargetAddr(TwoPods(), pol, ip) <==> (name == "a" && ip == 1) || (name == "b" && ip == 2)
  {
    var cl := TwoPods();
    assert POD_A in cl.pods && POD_B in cl.pods && "role" in pol.podSelector;
    assert IsTarget(cl, pol, POD_A) <==> name == "a";
    assert IsTarget(cl, pol, POD_B) <==> name == "b";
  }

  /** The first pod's packets reach the second, whose policy allows none: the chain of the source decides alone. */
  lemma DestinationOverruled(p: Packet)
    requires p.src == 1 && p.dst == 2 && !p.established && !p.fromLocal
    ensures Isolated(TwoPods(), "node", Egress, 1) && Isolated(TwoPods(), "node", Ingress, 2)
    ensures Overruled(TwoPods(), {2}, {1}, p)
  {
    var cl, spec := TwoPods(), RuleSpec([], []);
    hide TargetAddr;
    TargetsOfTwoPods("a", OPEN_EGRESS, 1);
    TargetsOfTwoPods("a", OPEN_EGRESS, 2);
    TargetsOfTwoPods("b", NO_INGRESS, 2);
    assert POD_A in cl.pods && POD_B in cl.pods && OPEN_EGRESS in cl.policies && NO_INGRESS in cl.policies;
    assert Isolates(cl, "node", Egress, 1, POD_A, OPEN_EGRESS) && Isolates(cl, "node", Ingress, 2, POD_B, NO_INGRESS);
    assert spec in RulesOf(OPEN_EGRESS, Egress);
    assert SpecAllows(cl, OPEN_EGRESS, Egress, spec, p);
    assert PolicyPasses(cl, OPEN_EGRESS, p);
    assert SomePolicyPasses(cl, 1, p);
    assert forall dir :: RulesOf(NO_INGRESS, dir) == [];
    assert !PolicyPasses(cl, NO_INGRESS, p);
    assert !SomePolicyPasses(cl, 2, p);
  }

  /** So after a sync of this cluster FORWARD accepts them. */
  lemma DestinationReached(st: State, ins: map<Addr, PodInfo>, outs: map<Addr, PodInfo>, rest: seq<Rule>, p: Packet,
                           depth: nat)
    requires ForwardDecided(st, TwoPods(), ins, outs, rest) && 1 in outs && 2 in ins && depth > 1
    requires p.src == 1 && p.dst == 2 && !p.established && !p.fromLocal
    ensures Run(st.chains[FORWARD], st, p, depth) == Accepted && Due(TwoPods(), 2, true, p) == Rejected
    ensures !BothAllow(TwoPods(), ins, outs, p)
  {
    DestinationOverruled(p);
    hide Run, SomePolicyPasses;
  }
}
