/** The second phase of a sync: a firewall chain for every pod that a policy applies to. */
module SyncPods {
  import opened Basics
  import opened Netfilter
  import opened Kernel
  import opened Naming
  import opened Policies
  import opened Firewall
  import opened PodChains
  import opened Sync

  predicate HasDirection(info: PolicyInfo, dir: Direction) {
    if dir == Ingress then info.ingressType else info.egressType
  }

  predicate Applies(info: PolicyInfo, pod: Pod, dir: Direction) {
    && pod.ip.Some? && info.namespace == pod.namespace && pod.ip.value in info.targets && HasDirection(info, dir)
  }

  /** The pod runs on this node and some policy of its namespace applies to it. */
  predicate Enabled(pod: Pod, infos: seq<PolicyInfo>, nodeIP: string, dir: Direction) {
    pod.hostIP == nodeIP && exists i :: 0 <= i < |infos| && Applies(infos[i], pod, dir)
  }

  predicate EnabledAt(pods: seq<Pod>, i: int, infos: seq<PolicyInfo>, nodeIP: string, dir: Direction, ip: Addr) {
    0 <= i < |pods| && pods[i].ip == Some(ip) && Enabled(pods[i], infos, nodeIP, dir)
  }

  /** Of the first `n` pods, the last enabled one with this address. */
  ghost predicate LastEnabled(pods: seq<Pod>, n: nat, infos: seq<PolicyInfo>, nodeIP: string, dir: Direction, ip: Addr,
                              pod: PodInfo) {
    exists i :: i < n && EnabledAt(pods, i, infos, nodeIP, dir, ip) &&
      pod == PodInfo(ip, pods[i].namespace, pods[i].name)
                && forall j :: i < j < n ==> !EnabledAt(pods, j, infos, nodeIP, dir, ip)
  }

  ghost predicate SomeEnabled(pods: seq<Pod>, n: nat, infos: seq<PolicyInfo>, nodeIP: string, dir: Direction,
                              ip: Addr) {
    exists i :: i < n && EnabledAt(pods, i, infos, nodeIP, dir, ip)
  }

  lemma EnabledStep(pods: seq<Pod>, n: nat, infos: seq<PolicyInfo>, nodeIP: string, dir: Direction, ip: Addr,
                    pod: PodInfo)
    ensures SomeEnabled(pods, n + 1, infos, nodeIP, dir, ip) <==>
            SomeEnabled(pods, n, infos, nodeIP, dir, ip) || EnabledAt(pods, n, infos, nodeIP, dir, ip)
    ensures LastEnabled(pods, n, infos, nodeIP, dir, ip, pod) && !EnabledAt(pods, n, infos, nodeIP, dir, ip) ==>
            LastEnabled(pods, n + 1, infos, nodeIP, dir, ip, pod)
    ensures EnabledAt(pods, n, infos, nodeIP, dir, ip) && pod == PodInfo(ip, pods[n].namespace, pods[n].name) ==>
            LastEnabled(pods, n + 1, infos, nodeIP, dir, ip, pod)
  {
    hide Enabled;
  }

  method IsEnabled(pod: Pod, infos: seq<PolicyInfo>, nodeIP: string, dir: Direction) returns (found: bool)
    ensures found <==> Enabled(pod, infos, nodeIP, dir)
  {
    found := false;
    if pod.hostIP == nodeIP {
      var i := 0;
      while i < |infos| && !found
        invariant 0 <= i <= |infos|
        invariant found ==> Enabled(pod, infos, nodeIP, dir)
        invariant !found ==> forall j :: 0 <= j < i ==> !Applies(infos[j], pod, dir)
      {
        found := Applies(infos[i], pod, dir);
        i := i + 1;
      }
    }
  }

  lemma EnabledHasAddress(pod: Pod, infos: seq<PolicyInfo>, nodeIP: string, dir: Direction)
    requires Enabled(pod, infos, nodeIP, dir)
    ensures pod.ip.Some?
  {
  }

  /** The pods of this node that need a firewall chain in one direction, by address. */
  method EnabledPods(pods: seq<Pod>, infos: seq<PolicyInfo>, nodeIP: string,
                     dir: Direction) returns (enabled: map<Addr, PodInfo>)
    ensures forall ip :: ip in enabled <==> SomeEnabled(pods, |pods|, infos, nodeIP, dir, ip)
    ensures forall ip :: ip in enabled ==> LastEnabled(pods, |pods|, infos, nodeIP, dir, ip, enabled[ip])
  {
    enabled := map[];
    for n := 0 to |pods|
      invariant forall ip :: ip in enabled <==> SomeEnabled(pods, n, infos, nodeIP, dir, ip)
      invariant forall ip :: ip in enabled ==> LastEnabled(pods, n, infos, nodeIP, dir, ip, enabled[ip])
    {
      hide LastEnabled, SomeEnabled, Enabled;
      var pod := pods[n];
      var found := IsEnabled(pod, infos, nodeIP, dir);
      ghost var before := enabled;
      if found {
        EnabledHasAddress(pod, infos, nodeIP, dir);
        enabled := enabled[pod.ip.value := PodInfo(pod.ip.value, pod.namespace, pod.name)];
      }
      forall ip: Addr
        ensures ip in enabled <==> SomeEnabled(pods, n + 1, infos, nodeIP, dir, ip)
        ensures ip in enabled ==> LastEnabled(pods, n + 1, infos, nodeIP, dir, ip, enabled[ip])
      {
        EnabledStep(pods, n, infos, nodeIP, dir, ip, if ip in enabled then enabled[ip] else PodInfo(ip, "", ""));
      }
    }
  }

  ghost predicate Keyed(pods: map<Addr, PodInfo>) {
    forall ip :: ip in pods ==> pods[ip].ip == ip
  }

  function ChainAt(d: Digest, pods: map<Addr, PodInfo>, ip: Addr, version: string): string
    requires ip in pods
  {
    PodChainOf(d, pods[ip], version)
  }

  ghost function ChainsOf(d: Digest, pods: map<Addr, PodInfo>, done: set<Addr>, version: string): set<string> {
    set ip | ip in done && ip in pods :: ChainAt(d, pods, ip, version)
  }

  /** Pods with different addresses get different chains: no two digests of 64 bits collide. */
  ghost predicate DistinctPodChains(d: Digest, pods: map<Addr, PodInfo>, version: string) {
    forall x, y :: x in pods && y in pods && x != y ==> ChainAt(d, pods, x, version) != ChainAt(d, pods, y, version)
  }

  /** Only the pods' chains and the base chains changed; nothing was lost; additions lead only onwards. */
  ghost predicate PodsGrown(before: Chains, now: Chains, pods: set<string>, policies: set<string>) {
    && SameExcept(now, before, pods + {FORWARD, OUTPUT})
    && Grown(before, now)
    && (forall c :: c in pods ==> c in now)
    && forall k ::
         AddedNaming(RulesIn(before, k), RulesIn(now, k), if k == FORWARD || k == OUTPUT then pods else policies)
  }

  ghost predicate AllPassed(d: Digest, a: State, b: State, pods: map<Addr, PodInfo>, done: set<Addr>, toPod: bool,
                            infos: seq<PolicyInfo>, version: string)
  {
    forall ip :: ip in done && ip in pods ==>
      var c := ChainAt(d, pods, ip, version);
      c in b.chains && b.chains[c] == Pass(RulesIn(a.chains, c), pods[ip], Jumps(d, infos, version, ip), toPod)
  }

  ghost predicate IsLoopJump(d: Digest, base: string, pods: map<Addr, PodInfo>, done: set<Addr>, toPod: bool,
                             version: string, r: Rule) {
    exists ip :: ip in done && ip in pods && r in BaseJumps(base, toPod, pods[ip], ChainAt(d, pods, ip, version))
  }

  /** The jumps that one loop puts into a base chain. */
  ghost function LoopJumps(d: Digest, base: string, pods: map<Addr, PodInfo>, done: set<Addr>, toPod: bool,
                           version: string): iset<Rule> {
    iset r | IsLoopJump(d, base, pods, done, toPod, version, r)
  }

  /** A loop put its jumps in front of the base chains. */
  ghost predicate LoopFronted(d: Digest, before: Chains, now: Chains, pods: map<Addr, PodInfo>, done: set<Addr>,
                              toPod: bool, version: string) {
    && FORWARD in before && FORWARD in now
    && Fronted(before[FORWARD], now[FORWARD], LoopJumps(d, FORWARD, pods, done, toPod, version))
    && OUTPUT in before && OUTPUT in now
    && Fronted(before[OUTPUT], now[OUTPUT], LoopJumps(d, OUTPUT, pods, done, toPod, version))
  }

  lemma LoopJumpsGrow(d: Digest, base: string, pods: map<Addr, PodInfo>, done: set<Addr>, ip: Addr, toPod: bool,
                      version: string)
    requires ip in pods
    ensures LoopJumps(d, base, pods, done, toPod, version) <= LoopJumps(d, base, pods, done + {ip}, toPod, version)
    ensures BaseJumps(base, toPod, pods[ip], ChainAt(d, pods, ip, version)) <=
            LoopJumps(d, base, pods, done + {ip}, toPod, version)
  {
    hide BaseJumps, PodChainOf;
    assert ip in done + {ip};
  }

  lemma LoopFrontedStep(d: Digest, a: Chains, m: Chains, b: Chains, pods: map<Addr, PodInfo>, done: set<Addr>, ip: Addr,
                        toPod: bool, version: string)
    requires ip in pods && LoopFronted(d, a, m, pods, done, toPod, version)
    requires BasesFronted(m, b, toPod, pods[ip], ChainAt(d, pods, ip, version))
    ensures LoopFronted(d, a, b, pods, done + {ip}, toPod, version)
  {
    hide Fronted, BaseJumps, LoopJumps, PodChainOf;
    var c := ChainAt(d, pods, ip, version);
    LoopJumpsGrow(d, FORWARD, pods, done, ip, toPod, version);
    LoopJumpsGrow(d, OUTPUT, pods, done, ip, toPod, version);
    FrontedTrans(a[FORWARD], m[FORWARD], b[FORWARD], LoopJumps(d, FORWARD, pods, done, toPod, version),
                 BaseJumps(FORWARD, toPod, pods[ip], c), LoopJumps(d, FORWARD, pods, done + {ip}, toPod, version));
    FrontedTrans(a[OUTPUT], m[OUTPUT], b[OUTPUT], LoopJumps(d, OUTPUT, pods, done, toPod, version),
                 BaseJumps(OUTPUT, toPod, pods[ip], c), LoopJumps(d, OUTPUT, pods, done + {ip}, toPod, version));
  }

  /** The pods with the addresses `done` have been synchronised. */
  ghost predicate PodsDone(d: Digest, a: State, b: State, pods: map<Addr, PodInfo>, done: set<Addr>, toPod: bool,
                           infos: seq<PolicyInfo>, version: string, complete: bool)
  {
    && PodsGrown(a.chains, b.chains, ChainsOf(d, pods, done, version), PolicyChains(d, infos, version))
    && LoopFronted(d, a.chains, b.chains, pods, done, toPod, version)
    && (forall ip :: ip in done && ip in pods ==> Guard(b, Way(toPod, ip), ChainAt(d, pods, ip, version)))
    && (forall ip :: ip in done && ip in pods ==> Links(b.chains, pods[ip], ChainAt(d, pods, ip, version), toPod))
    && (complete && DistinctPodChains(d, pods, version) ==> AllPassed(d, a, b, pods, done, toPod, infos, version))
  }

  /** A guard survives as long as nothing is lost and REJECT stays last. */
  lemma GuardGrows(a: State, b: State, key: Cond, c: string)
    requires Guard(a, key, c) && Grown(a.chains, b.chains) && Sound(b)
    ensures Guard(b, key, c)
  {
    var last := a.chains[c][|a.chains[c]| - 1];
    assert last in b.chains[c] && ClosesLast(b.chains[c]);
    var r :| r in a.chains[FORWARD] && r.conds == [key] && r.target == Jump(c);
    assert r in b.chains[FORWARD];
  }

  lemma LinksGrow(a: Chains, b: Chains, pod: PodInfo, c: string, toPod: bool)
    requires Links(a, pod, c, toPod) && Grown(a, b)
    ensures Links(b, pod, c, toPod)
  {
    hide JumpToPod;
  }

  lemma PodsGrownStep(a: Chains, m: Chains, b: Chains, c: string, pods: set<string>, policies: set<string>)
    requires PodsGrown(a, m, pods, policies) && c != FORWARD && c != OUTPUT
    requires PodGrew(m, b, c, policies) && c in b
    ensures PodsGrown(a, b, pods + {c}, policies)
  {
    GrownTrans(a, m, b);
    hide Grown;
    forall k
      ensures AddedNaming(RulesIn(a, k), RulesIn(b, k), if k == FORWARD || k == OUTPUT then pods + {c} else policies)
    {
      assert AddedNaming(RulesIn(a, k), RulesIn(m, k), if k == FORWARD || k == OUTPUT then pods else policies);
    }
  }

  lemma PassedStep(d: Digest, a: State, m: State, b: State, pods: map<Addr, PodInfo>, done: set<Addr>, ip: Addr,
                   toPod: bool, infos: seq<PolicyInfo>, version: string)
    requires ip in pods && DistinctPodChains(d, pods, version) && ip !in done
    requires AllPassed(d, a, m, pods, done, toPod, infos, version)
    requires SameExcept(m.chains, a.chains, ChainsOf(d, pods, done, version) + {FORWARD, OUTPUT})
    requires SameExcept(b.chains, m.chains, {ChainAt(d, pods, ip, version), FORWARD, OUTPUT})
    requires var c := ChainAt(d, pods, ip, version);
             c in b.chains && b.chains[c] == Pass(RulesIn(m.chains, c), pods[ip], Jumps(d, infos, version, ip), toPod)
    ensures AllPassed(d, a, b, pods, done + {ip}, toPod, infos, version)
  {
    hide Pass, Jumps;
    forall x | x in done + {ip} && x in pods
      ensures var c := ChainAt(d, pods, x, version);
              c in b.chains && b.chains[c] == Pass(RulesIn(a.chains, c), pods[x], Jumps(d, infos, version, x), toPod)
    {
      var c := ChainAt(d, pods, x, version);
      ChainKindsDisjoint(c);
      if x == ip {
        assert c !in ChainsOf(d, pods, done, version) + {FORWARD, OUTPUT};
      } else {
        assert c !in {ChainAt(d, pods, ip, version), FORWARD, OUTPUT};
      }
    }
  }

  lemma PodsSame(before: Chains, now: Chains, pods: set<string>, policies: set<string>)
    requires PodsGrown(before, now, pods, policies)
    ensures SameExcept(now, before, pods + {FORWARD, OUTPUT})
  {
  }

  lemma PodsStep(d: Digest, a: State, m: State, b: State, pods: map<Addr, PodInfo>, done: set<Addr>, ip: Addr,
                 toPod: bool, infos: seq<PolicyInfo>, version: string, complete: bool, complete': bool)
    requires ip in pods && Keyed(pods) && ip !in done && Sound(b)
    requires PodsDone(d, a, m, pods, done, toPod, infos, version, complete)
    requires PodDone(m, b, pods[ip], ChainAt(d, pods, ip, version), toPod, PolicyChains(d, infos, version),
                     Jumps(d, infos, version, ip), true, complete')
    ensures PodsDone(d, a, b, pods, done + {ip}, toPod, infos, version, complete && complete')
  {
    hide Sound, PolicyChains, PodsGrown, Pass, Jumps, AllPassed, Links, Guard, LoopFronted, BasesFronted;
    var c := ChainAt(d, pods, ip, version);
    ChainKindsDisjoint(c);
    LoopFrontedStep(d, a.chains, m.chains, b.chains, pods, done, ip, toPod, version);
    assert ChainsOf(d, pods, done + {ip}, version) == ChainsOf(d, pods, done, version) + {c};
    PodsGrownStep(a.chains, m.chains, b.chains, c, ChainsOf(d, pods, done, version), PolicyChains(d, infos, version));
    forall x | x in done && x in pods
      ensures Links(b.chains, pods[x], ChainAt(d, pods, x, version), toPod)
      ensures Guard(b, Way(toPod, x), ChainAt(d, pods, x, version))
    {
      LinksGrow(m.chains, b.chains, pods[x], ChainAt(d, pods, x, version), toPod);
      GuardGrows(m, b, Way(toPod, x), ChainAt(d, pods, x, version));
    }
    if complete && complete' && DistinctPodChains(d, pods, version) {
      PodsSame(a.chains, m.chains, ChainsOf(d, pods, done, version), PolicyChains(d, infos, version));
      PassedStep(d, a, m, b, pods, done, ip, toPod, infos, version);
    }
  }

  lemma PodsDoneKeep(d: Digest, a: State, b: State, pods: map<Addr, PodInfo>, done: set<Addr>, toPod: bool,
                     infos: seq<PolicyInfo>, version: string, complete: bool)
    requires PodsDone(d, a, b, pods, done, toPod, infos, version, complete)
    ensures a.chains.Keys <= b.chains.Keys
  {
    hide PolicyChains, AllPassed, Links, Guard, LoopFronted;
  }

  lemma PodsStart(d: Digest, a: State, pods: map<Addr, PodInfo>, toPod: bool, infos: seq<PolicyInfo>, version: string)
    requires FORWARD in a.chains && OUTPUT in a.chains
    ensures PodsDone(d, a, a, pods, {}, toPod, infos, version, true)
  {
    hide PolicyChains;
  }

  lemma SoundIn(inv: iset<State>, st: State)
    requires Stable(inv) && st in inv
    ensures Sound(st)
  {
  }

  /** One of the two loops over pods, in any order. */
  method SyncPodChains(npc: Controller, pods: map<Addr, PodInfo>, toPod: bool, infos: seq<PolicyInfo>, version: string,
                       ghost inv: iset<State>)
    returns (ok: bool, chains: set<string>, complete: bool)
    requires Stable(inv) && npc.kernel.Now() in inv && Keyed(pods)
    modifies npc.kernel
    ensures npc.kernel.Now() in inv && Within(old(npc.kernel.log), npc.kernel.log, inv)
    ensures old(npc.kernel.faults) <= npc.kernel.faults
    ensures npc.kernel.sets == old(npc.kernel.sets)
    ensures npc.kernel.faults == old(npc.kernel.faults) &&
              PolicyChains(npc.digest, infos, version) <= old(npc.kernel.chains).Keys ==>
              ok && complete
    ensures ok ==> chains == ChainsOf(npc.digest, pods, pods.Keys, version)
    ensures ok ==>
              PodsDone(npc.digest, old(npc.kernel.Now()), npc.kernel.Now(), pods, pods.Keys, toPod, infos, version,
                       complete)
  {
    hide Stable, Within, PodDone, PodsDone, PolicyChains;
    ok, chains, complete := true, {}, true;
    var todo := pods.Keys;
    ghost var done, a := {}, npc.kernel.Now();
    BaseChains(inv, a);
    WithinSame(npc.kernel.log, inv);
    PodsStart(npc.digest, a, pods, toPod, infos, version);
    while todo != {}
      invariant ok && done + todo == pods.Keys && done !! todo
      invariant npc.kernel.Now() in inv && Within(old(npc.kernel.log), npc.kernel.log, inv)
      invariant old(npc.kernel.faults) <= npc.kernel.faults
      invariant npc.kernel.sets == old(npc.kernel.sets)
      invariant npc.kernel.faults == old(npc.kernel.faults) &&
                  PolicyChains(npc.digest, infos, version) <= a.chains.Keys ==>
                  complete
      invariant chains == ChainsOf(npc.digest, pods, done, version)
      invariant PodsDone(npc.digest, a, npc.kernel.Now(), pods, done, toPod, infos, version, complete)
      decreases todo
    {
      var ip :| ip in todo;
      ghost var m, log1 := npc.kernel.Now(), npc.kernel.log;
      PodsDoneKeep(npc.digest, a, m, pods, done, toPod, infos, version, complete);
      var cleanly;
      ok, cleanly := npc.SyncPod(pods[ip], toPod, infos, version, inv);
      WithinTrans(old(npc.kernel.log), log1, npc.kernel.log, inv);
      if !ok {
        return;
      }
      SoundIn(inv, npc.kernel.Now());
      PodsStep(npc.digest, a, m, npc.kernel.Now(), pods, done, ip, toPod, infos, version, complete, cleanly);
      complete := complete && cleanly;
      chains := chains + {PodChainOf(npc.digest, pods[ip], version)};
      assert ChainsOf(npc.digest, pods, done + {ip}, version) ==
        ChainsOf(npc.digest, pods, done, version) + {ChainAt(npc.digest, pods, ip, version)};
      done, todo := done + {ip}, todo - {ip};
    }
  }

  /** Different pods get different chains, in both loops together. */
  ghost predicate InjectivePods(d: Digest, ins: map<Addr, PodInfo>, outs: map<Addr, PodInfo>, version: string) {
    forall p, q :: p in ins.Values + outs.Values && q in ins.Values + outs.Values && p != q ==>
      PodChainOf(d, p, version) != PodChainOf(d, q, version)
  }

  ghost function ActivePods(d: Digest, ins: map<Addr, PodInfo>, outs: map<Addr, PodInfo>,
                            version: string): set<string> {
    ChainsOf(d, ins, ins.Keys, version) + ChainsOf(d, outs, outs.Keys, version)
  }

  /** Every pod's chain is in normal form. */
  ghost predicate Settled(d: Digest, b: State, ins: map<Addr, PodInfo>, outs: map<Addr, PodInfo>,
                          infos: seq<PolicyInfo>, version: string) {
    && (forall ip :: ip in ins ==>
          var c := ChainAt(d, ins, ip, version);
          c in b.chains && b.chains[c] == NormalForm(ins[ip], Jumps(d, infos, version, ip), true))
    && (forall ip :: ip in outs ==>
          var c := ChainAt(d, outs, ip, version);
          c in b.chains &&
            b.chains[c] == NormalForm(outs[ip], Jumps(d, infos, version, ip), ip in ins && ins[ip] == outs[ip]))
  }

  /** The names of this sync are new and distinct. */
  ghost predicate FreshNames(d: Digest, chains: Chains, ins: map<Addr, PodInfo>, outs: map<Addr, PodInfo>,
                             infos: seq<PolicyInfo>, version: string) {
    && DistinctPolicyChains(d, infos, version) && InjectivePods(d, ins, outs, version)
    && ActivePods(d, ins, outs, version) !! chains.Keys
  }

  /** The traffic of every pod is sent through its chain. */
  ghost predicate AllLinked(d: Digest, chains: Chains, ins: map<Addr, PodInfo>, outs: map<Addr, PodInfo>,
                            version: string) {
    && (forall ip :: ip in ins ==> Links(chains, ins[ip], ChainAt(d, ins, ip, version), true))
    && (forall ip :: ip in outs ==> Links(chains, outs[ip], ChainAt(d, outs, ip, version), false))
  }

  /** The traffic of every pod is guarded by its chain. */
  ghost predicate AllGuarded(d: Digest, st: State, ins: map<Addr, PodInfo>, outs: map<Addr, PodInfo>, version: string) {
    && (forall ip :: ip in ins ==> Guard(st, ToAddr(ip), ChainAt(d, ins, ip, version)))
    && (forall ip :: ip in outs ==> Guard(st, FromAddr(ip), ChainAt(d, outs, ip, version)))
  }

  /** Rules of one kind were put in front, and then rules of another kind in front of these. */
  ghost predicate FrontedTwice(before: seq<Rule>, now: seq<Rule>, inner: iset<Rule>, outer: iset<Rule>) {
    exists mid :: Fronted(before, mid, inner) && Fronted(mid, now, outer)
  }

  /** The base chains begin with the jumps for egress, then those for ingress, then what was there before. */
  ghost predicate BothFronted(d: Digest, before: Chains, now: Chains, ins: map<Addr, PodInfo>, outs: map<Addr, PodInfo>,
                              version: string) {
    forall base :: base == FORWARD || base == OUTPUT ==>
      && base in before && base in now
      && FrontedTwice(before[base], now[base], LoopJumps(d, base, ins, ins.Keys, true, version),
                      LoopJumps(d, base, outs, outs.Keys, false, version))
  }

  lemma BothFrontedOf(d: Digest, a: Chains, m: Chains, b: Chains, ins: map<Addr, PodInfo>, outs: map<Addr, PodInfo>,
                      version: string)
    requires LoopFronted(d, a, m, ins, ins.Keys, true, version) && LoopFronted(d, m, b, outs, outs.Keys, false, version)
    ensures BothFronted(d, a, b, ins, outs, version)
  {
    hide Fronted, LoopJumps;
  }

  ghost predicate FirewallDone(d: Digest, a: State, b: State, ins: map<Addr, PodInfo>, outs: map<Addr, PodInfo>,
                               infos: seq<PolicyInfo>, version: string, complete: bool)
  {
    && PodsGrown(a.chains, b.chains, ActivePods(d, ins, outs, version), PolicyChains(d, infos, version))
    && AllGuarded(d, b, ins, outs, version)
    && AllLinked(d, b.chains, ins, outs, version)
    && BothFronted(d, a.chains, b.chains, ins, outs, version)
    && (complete && FreshNames(d, a.chains, ins, outs, infos, version) ==> Settled(d, b, ins, outs, infos, version))
  }

  lemma InjectiveDistinct(d: Digest, ins: map<Addr, PodInfo>, outs: map<Addr, PodInfo>, version: string)
    requires InjectivePods(d, ins, outs, version) && Keyed(ins) && Keyed(outs)
    ensures DistinctPodChains(d, ins, version) && DistinctPodChains(d, outs, version)
  {
    hide PodChainOf;
    assert forall ip :: ip in ins ==> ins[ip] in ins.Values + outs.Values;
    assert forall ip :: ip in outs ==> outs[ip] in ins.Values + outs.Values;
  }

  lemma IngressSettled(d: Digest, a: State, m: State, ins: map<Addr, PodInfo>, infos: seq<PolicyInfo>, version: string,
                       ip: Addr)
    requires ip in ins && ins[ip].ip == ip && ChainAt(d, ins, ip, version) !in a.chains
    requires DistinctPolicyChains(d, infos, version)
    requires AllPassed(d, a, m, ins, ins.Keys, true, infos, version)
    ensures var c := ChainAt(d, ins, ip, version);
            c in m.chains && m.chains[c] == NormalForm(ins[ip], Jumps(d, infos, version, ip), true)
  {
    SettlesInNormalForm(d, infos, version, ins[ip]);
    hide NormalForm, IngressPass, EgressPass, Jumps, PodChainOf;
    var c := ChainAt(d, ins, ip, version);
    assert RulesIn(a.chains, c) == [];
  }

  lemma NotIngress(d: Digest, ins: map<Addr, PodInfo>, outs: map<Addr, PodInfo>, version: string, ip: Addr)
    requires ip in outs && Keyed(ins) && Keyed(outs) && InjectivePods(d, ins, outs, version)
    requires !(ip in ins && ins[ip] == outs[ip])
    ensures ChainAt(d, outs, ip, version) !in ChainsOf(d, ins, ins.Keys, version) + {FORWARD, OUTPUT}
  {
    ChainKindsDisjoint(ChainAt(d, outs, ip, version));
    hide PodChainOf;
    forall x | x in ins
      ensures ChainAt(d, ins, x, version) != ChainAt(d, outs, ip, version)
    {
      assert ins[x] in ins.Values + outs.Values && outs[ip] in ins.Values + outs.Values && ins[x] != outs[ip];
    }
  }

  lemma EgressSettled(d: Digest, a: State, m: State, b: State, ins: map<Addr, PodInfo>, outs: map<Addr, PodInfo>,
                      infos: seq<PolicyInfo>, version: string, ip: Addr)
    requires ip in outs && Keyed(ins) && Keyed(outs) && InjectivePods(d, ins, outs, version)
    requires DistinctPolicyChains(d, infos, version)
    requires ActivePods(d, ins, outs, version) !! a.chains.Keys
    requires SameExcept(m.chains, a.chains, ChainsOf(d, ins, ins.Keys, version) + {FORWARD, OUTPUT})
    requires AllPassed(d, a, m, ins, ins.Keys, true, infos, version)
    requires AllPassed(d, m, b, outs, outs.Keys, false, infos, version)
    ensures var c := ChainAt(d, outs, ip, version);
            c in b.chains &&
              b.chains[c] == NormalForm(outs[ip], Jumps(d, infos, version, ip), ip in ins && ins[ip] == outs[ip])
  {
    SettlesInNormalForm(d, infos, version, outs[ip]);
    hide NormalForm, IngressPass, EgressPass, Jumps, PodChainOf, DistinctPolicyChains;
    var c := ChainAt(d, outs, ip, version);
    assert c in ActivePods(d, ins, outs, version);
    if ip in ins && ins[ip] == outs[ip] {
      IngressSettled(d, a, m, ins, infos, version, ip);
    } else {
      NotIngress(d, ins, outs, version, ip);
      assert RulesIn(m.chains, c) == [];
    }
  }

  lemma FlippedPods(d: Digest, ins: map<Addr, PodInfo>, outs: map<Addr, PodInfo>, version: string)
    requires InjectivePods(d, ins, outs, version)
    ensures InjectivePods(d, outs, ins, version)
  {
    hide PodChainOf;
    assert ins.Values + outs.Values == outs.Values + ins.Values;
  }

  lemma BothSettled(d: Digest, a: State, m: State, b: State, ins: map<Addr, PodInfo>, outs: map<Addr, PodInfo>,
                    infos: seq<PolicyInfo>, version: string)
    requires Keyed(ins) && Keyed(outs) && InjectivePods(d, ins, outs, version)
    requires DistinctPolicyChains(d, infos, version)
    requires ActivePods(d, ins, outs, version) !! a.chains.Keys
    requires SameExcept(m.chains, a.chains, ChainsOf(d, ins, ins.Keys, version) + {FORWARD, OUTPUT})
    requires SameExcept(b.chains, m.chains, ChainsOf(d, outs, outs.Keys, version) + {FORWARD, OUTPUT})
    requires AllPassed(d, a, m, ins, ins.Keys, true, infos, version)
    requires AllPassed(d, m, b, outs, outs.Keys, false, infos, version)
    ensures Settled(d, b, ins, outs, infos, version)
  {
    hide NormalForm, Jumps, AllPassed, DistinctPolicyChains, PodChainOf;
    forall ip | ip in outs
      ensures var c := ChainAt(d, outs, ip, version);
              c in b.chains &&
                b.chains[c] == NormalForm(outs[ip], Jumps(d, infos, version, ip), ip in ins && ins[ip] == outs[ip])
    {
      EgressSettled(d, a, m, b, ins, outs, infos, version, ip);
    }
    forall ip | ip in ins
      ensures var c := ChainAt(d, ins, ip, version);
              c in b.chains && b.chains[c] == NormalForm(ins[ip], Jumps(d, infos, version, ip), true)
    {
      assert ChainAt(d, ins, ip, version) in ActivePods(d, ins, outs, version);
      IngressSettled(d, a, m, ins, infos, version, ip);
      if !(ip in outs && ins[ip] == outs[ip]) {
        FlippedPods(d, ins, outs, version);
        NotIngress(d, outs, ins, version, ip);
      }
    }
  }

  lemma PodsGrownTrans(a: Chains, m: Chains, b: Chains, ins: set<string>, outs: set<string>, policies: set<string>)
    requires PodsGrown(a, m, ins, policies) && PodsGrown(m, b, outs, policies)
    ensures PodsGrown(a, b, ins + outs, policies)
  {
    GrownTrans(a, m, b);
    forall k
      ensures AddedNaming(RulesIn(a, k), RulesIn(b, k), if k == FORWARD || k == OUTPUT then ins + outs else policies)
    {
      assert AddedNaming(RulesIn(a, k), RulesIn(m, k), if k == FORWARD || k == OUTPUT then ins else policies);
      assert AddedNaming(RulesIn(m, k), RulesIn(b, k), if k == FORWARD || k == OUTPUT then outs else policies);
    }
  }

  lemma PodsKeep(before: Chains, now: Chains, pods: set<string>, policies: set<string>)
    requires PodsGrown(before, now, pods, policies)
    ensures Grown(before, now)
  {
  }

  lemma FirewallDoneOf(d: Digest, a: State, m: State, b: State, ins: map<Addr, PodInfo>, outs: map<Addr, PodInfo>,
                       infos: seq<PolicyInfo>, version: string, first: bool, second: bool)
    requires Keyed(ins) && Keyed(outs) && Sound(b)
    requires PodsDone(d, a, m, ins, ins.Keys, true, infos, version, first)
    requires PodsDone(d, m, b, outs, outs.Keys, false, infos, version, second)
    ensures FirewallDone(d, a, b, ins, outs, infos, version, first && second)
  {
    hide PodsGrown, AllPassed, Settled, Sound, DistinctPolicyChains, InjectivePods, DistinctPodChains, PolicyChains,
         Links, Guard, LoopFronted, BothFronted;
    BothFrontedOf(d, a.chains, m.chains, b.chains, ins, outs, version);
    var x, y, policies := ChainsOf(d, ins, ins.Keys, version), ChainsOf(d, outs, outs.Keys, version),
      PolicyChains(d, infos, version);
    PodsGrownTrans(a.chains, m.chains, b.chains, x, y, policies);
    PodsKeep(m.chains, b.chains, y, policies);
    forall ip | ip in ins
      ensures Guard(b, ToAddr(ip), ChainAt(d, ins, ip, version))
      ensures Links(b.chains, ins[ip], ChainAt(d, ins, ip, version), true)
    {
      GuardGrows(m, b, ToAddr(ip), ChainAt(d, ins, ip, version));
      LinksGrow(m.chains, b.chains, ins[ip], ChainAt(d, ins, ip, version), true);
    }
    if first && second && FreshNames(d, a.chains, ins, outs, infos, version) {
      InjectiveDistinct(d, ins, outs, version);
      PodsSame(a.chains, m.chains, x, policies);
      PodsSame(m.chains, b.chains, y, policies);
      BothSettled(d, a, m, b, ins, outs, infos, version);
    }
  }

  /** The ingress loop, then the egress loop. */
  method SyncPodFirewallChains(npc: Controller, ins: map<Addr, PodInfo>, outs: map<Addr, PodInfo>,
                               infos: seq<PolicyInfo>, version: string, ghost inv: iset<State>)
    returns (ok: bool, active: set<string>, complete: bool)
    requires Stable(inv) && npc.kernel.Now() in inv && Keyed(ins) && Keyed(outs)
    modifies npc.kernel
    ensures npc.kernel.Now() in inv && Within(old(npc.kernel.log), npc.kernel.log, inv)
    ensures old(npc.kernel.faults) <= npc.kernel.faults
    ensures npc.kernel.sets == old(npc.kernel.sets)
    ensures npc.kernel.faults == old(npc.kernel.faults) &&
              PolicyChains(npc.digest, infos, version) <= old(npc.kernel.chains).Keys ==>
              ok && complete
    ensures ok ==> active == ActivePods(npc.digest, ins, outs, version)
    ensures ok ==> FirewallDone(npc.digest, old(npc.kernel.Now()), npc.kernel.Now(), ins, outs, infos, version,
                                complete)
  {
    hide Stable, Within, PodsDone, FirewallDone, PolicyChains;
    ghost var a := npc.kernel.Now();
    ok, active, complete := SyncPodChains(npc, ins, true, infos, version, inv);
    if ok {
      ghost var m, log1 := npc.kernel.Now(), npc.kernel.log;
      PodsDoneKeep(npc.digest, a, m, ins, ins.Keys, true, infos, version, complete);
      var more, second;
      ok, more, second := SyncPodChains(npc, outs, false, infos, version, inv);
      WithinTrans(old(npc.kernel.log), log1, npc.kernel.log, inv);
      if ok {
        SoundIn(inv, npc.kernel.Now());
        FirewallDoneOf(npc.digest, a, m, npc.kernel.Now(), ins, outs, infos, version, complete, second);
      }
      active, complete := active + more, complete && second;
    }
  }
}
