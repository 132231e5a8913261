/** Whole syncs, and runs of them. */
module Reconcile {
  import opened Basics
  import opened Netfilter
  import opened Kernel
  import opened Naming
  import opened Policies
  import opened Build
  import opened Compile
  import opened CompileSets
  import opened Firewall
  import opened PodChains
  import opened Sync
  import opened SyncPolicies
  import opened SyncPods
  import opened Deletion
  import opened Cleanup
  import opened Enforcement
  import opened Forwarding

  lemma EnabledMeaning(cl: Cluster, infos: seq<PolicyInfo>, nodeIP: string, dir: Direction, ip: Addr)
    requires RepresentsAll(cl, infos)
    ensures SomeEnabled(cl.pods, |cl.pods|, infos, nodeIP, dir, ip) <==> Isolated(cl, nodeIP, dir, ip)
  {
    hide TargetAddr, HasType, Represents;
    forall i, pod | 0 <= i < |infos| && pod in cl.pods && pod.ip == Some(ip)
      ensures pod.hostIP == nodeIP && Applies(infos[i], pod, dir) <==>
                Isolates(cl, nodeIP, dir, ip, pod, cl.policies[i])
    {
      assert RepresentsPolicy(cl, cl.policies[i], infos[i]);
    }
    if pod, pol :| pod in cl.pods && pol in cl.policies && Isolates(cl, nodeIP, dir, ip, pod, pol) {
      var i :| 0 <= i < |cl.policies| && cl.policies[i] == pol;
      var j :| 0 <= j < |cl.pods| && cl.pods[j] == pod;
      assert Applies(infos[i], pod, dir);
      assert EnabledAt(cl.pods, j, infos, nodeIP, dir, ip);
    }
    if j :| j < |cl.pods| && EnabledAt(cl.pods, j, infos, nodeIP, dir, ip) {
      var i :| 0 <= i < |infos| && Applies(infos[i], cl.pods[j], dir);
      assert cl.policies[i] in cl.policies && cl.pods[j] in cl.pods;
    }
  }

  // What the phases of one sync leave behind, put together.

  /** None of the names of this sync exists yet. */
  ghost predicate FreshVersion(d: Digest, chains: Chains, infos: seq<PolicyInfo>, ins: map<Addr, PodInfo>,
                               outs: map<Addr, PodInfo>, version: string) {
    PolicyChains(d, infos, version) !! chains.Keys && ActivePods(d, ins, outs, version) !! chains.Keys
  }

  lemma ActiveNames(d: Digest, infos: seq<PolicyInfo>, ins: map<Addr, PodInfo>, outs: map<Addr, PodInfo>,
                    version: string)
    ensures forall c :: c in PolicyChains(d, infos, version) ==> IsPolicyChain(c)
    ensures forall c :: c in ActivePods(d, ins, outs, version) ==> IsPodChain(c)
  {
  }

  /** The pod phase leaves the policy chains alone. */
  lemma PoliciesUntouched(m: Chains, n: Chains, policies: set<string>, pods: set<string>, c: string)
    requires PodsGrown(m, n, pods, policies) && c in policies
    requires (forall q :: q in pods ==> IsPodChain(q)) && (forall p :: p in policies ==> IsPolicyChain(p))
    ensures (c in n <==> c in m) && (c in m && c in n ==> n[c] == m[c])
  {
    ChainKindsDisjoint(c);
  }

  /** Under a fresh version, the chains of this sync lead only to chains and sets of this sync. */
  lemma FreshIsClosed(a: Chains, m: Chains, n: Chains, policies: set<string>, pods: set<string>, active: set<string>)
    requires SameExcept(m, a, policies) && (forall k :: AddedUsing(a, m, k, active)) && PodsGrown(m, n, pods, policies)
    requires policies !! a.Keys && pods !! a.Keys
    requires (forall q :: q in pods ==> IsPodChain(q)) && (forall p :: p in policies ==> IsPolicyChain(p))
    ensures pods !! m.Keys && ActiveClosed(n, policies, pods, active)
    ensures forall k :: k in n && k in pods ==> OnlyPolicies(n[k], policies)
  {
    hide Names, SetsOf, IsPodChain, IsPolicyChain;
    BaseAreNeither();
    forall k | k in pods
      ensures k !in m
    {
      ChainKindsDisjoint(k);
    }
    forall k | k in n && k in pods
      ensures OnlyPolicies(n[k], policies)
    {
      assert AddedNaming(RulesIn(m, k), RulesIn(n, k), if k == FORWARD || k == OUTPUT then pods else policies);
    }
    forall k, r, s | k in n && k in policies && r in n[k] && s in SetsOf(r) && IsPolicySet(s)
      ensures s in active
    {
      PoliciesUntouched(m, n, policies, pods, k);
      assert AddedUsing(a, m, k, active);
    }
  }

  lemma WrittenStays(d: Digest, a: Chains, m: Chains, n: Chains, b: Chains, infos: seq<PolicyInfo>, version: string,
                     pods: set<string>, listed: bool)
    requires AllWritten(d, a, m, infos, version) && PodsGrown(m, n, pods, PolicyChains(d, infos, version))
    requires ChainsCleaned(n, b, PolicyChains(d, infos, version), pods, listed)
    requires forall q :: q in pods ==> IsPodChain(q)
    requires forall p :: p in PolicyChains(d, infos, version) ==> IsPolicyChain(p)
    ensures AllWritten(d, a, b, infos, version)
  {
    hide PolicyOps, PolicyChainOf, IsPodChain, IsPolicyChain, PodsGrown;
    forall i | 0 <= i < |infos|
      ensures Written(a, b, PolicyChainOf(d, infos[i], version), PolicyOps(d, infos[i]))
    {
      var c := PolicyChainOf(d, infos[i], version);
      assert c in PolicyChains(d, infos, version);
      assert Written(a, m, c, PolicyOps(d, infos[i]));
      PoliciesUntouched(m, n, PolicyChains(d, infos, version), pods, c);
    }
  }

  lemma RealisedStays(ops: seq<Op>, n: Sets, b: Sets, active: set<string>)
    requires Realised(ops, n) && SetsCleaned(n, b, active) && forall s :: s in active <==> s in Declared(ops)
    ensures Realised(ops, b)
  {
  }

  lemma SettledStays(d: Digest, n: State, b: State, ins: map<Addr, PodInfo>, outs: map<Addr, PodInfo>,
                     infos: seq<PolicyInfo>, version: string, policies: set<string>, pods: set<string>, listed: bool)
    requires Settled(d, n, ins, outs, infos, version) && ChainsCleaned(n.chains, b.chains, policies, pods, listed)
    requires pods == ActivePods(d, ins, outs, version) && forall k :: k in n.chains && k in pods ==>
               OnlyPolicies(n.chains[k], policies)
    ensures Settled(d, b, ins, outs, infos, version)
  {
    hide NormalForm, Jumps, PodChainOf, OnlyPolicies;
    forall ip | ip in ins
      ensures ChainAt(d, ins, ip, version) in pods
    {
    }
    forall ip | ip in outs
      ensures ChainAt(d, outs, ip, version) in pods
    {
    }
  }

  lemma EnforcedOf(d: Digest, st: State, before: Chains, cl: Cluster, infos: seq<PolicyInfo>, ins: map<Addr, PodInfo>,
                   outs: map<Addr, PodInfo>, version: string)
    requires ValidDigest(d) && RepresentsAll(cl, infos) && ValidInput(cl) && InPlace(d, st, before, infos, version)
    requires Settled(d, st, ins, outs, infos, version) && Keyed(ins) && Keyed(outs)
    ensures Enforced(d, st, cl, ins, outs, version)
  {
    hide InPlace, Due, NormalForm, Jumps, Run, RepresentsAll, ValidInput, PodChainOf;
    forall ip, p, depth: nat | ip in ins && depth > 0
      ensures VerdictAt(d, st, ins, ip, version, p, depth) == Some(Due(cl, ip, true, p))
    {
      PodVerdict(d, cl, infos, version, before, st, ins[ip], true, p, depth);
    }
    forall ip, p, depth: nat | ip in outs && depth > 0
      ensures VerdictAt(d, st, outs, ip, version, p, depth) == Some(Due(cl, ip, ip in ins && ins[ip] == outs[ip], p))
    {
      PodVerdict(d, cl, infos, version, before, st, outs[ip], ip in ins && ins[ip] == outs[ip], p, depth);
    }
  }

  /**
   A sync starts without leftovers, with its names unused, and the digests it uses do not collide: with
   each other, or with sets and cached kinds that are there.
   */
  ghost predicate Orderly(d: Digest, a: Memory, infos: seq<PolicyInfo>, ins: map<Addr, PodInfo>,
                          outs: map<Addr, PodInfo>, version: string) {
    && FreshVersion(d, a.st.chains, infos, ins, outs, version)
    && DistinctPolicyChains(d, infos, version) && InjectivePods(d, ins, outs, version)
    && Steady(a, AllOps(d, infos)) && Coherent(AllOps(d, infos))
  }

  lemma SyncedEnforced(d: Digest, a: Memory, m: Memory, n: State, b: State, cl: Cluster, infos: seq<PolicyInfo>,
                       ins: map<Addr, PodInfo>, outs: map<Addr, PodInfo>, version: string, active: set<string>,
                       listed: bool)
    requires ValidDigest(d) && RepresentsAll(cl, infos) && ValidInput(cl) && Keyed(ins) && Keyed(outs)
    requires Orderly(d, a, infos, ins, outs, version)
    requires PoliciesDone(d, a, m, infos, version, active, true)
    requires FirewallDone(d, m.st, n, ins, outs, infos, version, true) && n.sets == m.st.sets
    requires ChainsCleaned(n.chains, b.chains, PolicyChains(d, infos, version), ActivePods(d, ins, outs, version),
                           listed)
    requires SetsCleaned(n.sets, b.sets, active)
    ensures Enforced(d, b, cl, ins, outs, version)
  {
    hide ChainsCleaned, SetsCleaned, PodsGrown, AllWritten, Settled, Enforced, PolicyChains, ActivePods, AddedUsing,
         ActiveClosed, OnlyPolicies, InjectivePods, DistinctPolicyChains, RepresentsAll, ValidInput, NoLeftovers,
         Coherent, CacheAgrees, KindsAgree, AllOps, Realised, AllLinked;
    var policies, pods := PolicyChains(d, infos, version), ActivePods(d, ins, outs, version);
    ActiveNames(d, infos, ins, outs, version);
    FreshIsClosed(a.st.chains, m.st.chains, n.chains, policies, pods, active);
    assert Settled(d, n, ins, outs, infos, version);
    WrittenStays(d, a.st.chains, m.st.chains, n.chains, b.chains, infos, version, pods, listed);
    RealisedStays(AllOps(d, infos), n.sets, b.sets, active);
    SettledStays(d, n, b, ins, outs, infos, version, policies, pods, listed);
    EnforcedOf(d, b, a.st.chains, cl, infos, ins, outs, version);
  }

  /**
   Under a fresh version the base chains are as before in the policy phase, and the stale pod
   chains are the old ones.
   */
  lemma FreshBases(d: Digest, a: State, m: Chains, n: Chains, ins: map<Addr, PodInfo>, outs: map<Addr, PodInfo>,
                   version: string, policies: set<string>, pods: set<string>)
    requires Sound(a) && SameExcept(m, a.chains, policies) && PodsGrown(m, n, pods, policies)
    requires pods == ActivePods(d, ins, outs, version) && pods !! a.chains.Keys
    requires (forall q :: q in pods ==> IsPodChain(q)) && (forall c :: c in policies ==> IsPolicyChain(c))
    requires BothFronted(d, m, n, ins, outs, version)
    ensures BothFronted(d, a.chains, n, ins, outs, version) && StalePods(n, pods) == PodChainsIn(a.chains)
    ensures LeadsElsewhere(RulesIn(a.chains, FORWARD), pods) && LeadsElsewhere(RulesIn(a.chains, OUTPUT), pods)
  {
    hide IsPodChain, IsPolicyChain, LoopJumps, FrontedTwice, ActivePods, Layered;
    BaseAreNeither();
    PodsSame(m, n, pods, policies);
    forall c | IsPodChain(c)
      ensures c in n && c !in pods <==> c in a.chains
    {
      ChainKindsDisjoint(c);
    }
    forall k, r | (k == FORWARD || k == OUTPUT) && r in RulesIn(a.chains, k) && r.target.Jump?
      ensures r.target.chain !in pods
    {
      assert Resolvable(a, r);
    }
  }

  /** What a clean orderly sync makes the base chains say. */
  lemma SyncedForwards(d: Digest, a: Memory, m: Memory, n: State, b: State, cl: Cluster, infos: seq<PolicyInfo>,
                       ins: map<Addr, PodInfo>, outs: map<Addr, PodInfo>, version: string, active: set<string>,
                       listed: bool)
    requires Sound(a.st) && Keyed(ins) && Keyed(outs) && FreshVersion(d, a.st.chains, infos, ins, outs, version)
    requires PoliciesDone(d, a, m, infos, version, active, true)
    requires FirewallDone(d, m.st, n, ins, outs, infos, version, true)
    requires ChainsCleaned(n.chains, b.chains, PolicyChains(d, infos, version), ActivePods(d, ins, outs, version),
                           listed)
    requires AllLinked(d, b.chains, ins, outs, version) && Enforced(d, b, cl, ins, outs, version)
    ensures ForwardDecided(b, cl, ins, outs, OldRules(a.st.chains, FORWARD, listed))
    ensures OutputDecided(b, cl, ins, OldRules(a.st.chains, OUTPUT, listed))
  {
    hide Sound, PodsGrown, AllWritten, Settled, Enforced, PolicyChains, ActivePods, AddedUsing, SetsDone, AllLinked,
         AllGuarded, DistinctPolicyChains, BothFronted, ForwardDecided, OutputDecided, OldRules, BaseCleaned,
         NoneStale, OnlyPolicies;
    var policies, pods := PolicyChains(d, infos, version), ActivePods(d, ins, outs, version);
    ActiveNames(d, infos, ins, outs, version);
    FreshBases(d, a.st, m.st.chains, n.chains, ins, outs, version, policies, pods);
    BasesDecided(d, a.st.chains, n.chains, b, cl, ins, outs, version, listed);
  }

  /** Cleanup is not held up by references. */
  lemma NotBlocked(d: Digest, a: Memory, m: Memory, n: State, infos: seq<PolicyInfo>, ins: map<Addr, PodInfo>,
                   outs: map<Addr, PodInfo>, version: string, active: set<string>, clean: bool, complete: bool)
    requires PoliciesDone(d, a, m, infos, version, active, clean)
    requires FirewallDone(d, m.st, n, ins, outs, infos, version, complete)
    requires FreshVersion(d, a.st.chains, infos, ins, outs, version)
    ensures ActiveClosed(n.chains, PolicyChains(d, infos, version), ActivePods(d, ins, outs, version), active)
  {
    hide PodsGrown, AllWritten, Settled, PolicyChains, ActivePods, AddedUsing, SetsDone;
    ActiveNames(d, infos, ins, outs, version);
    FreshIsClosed(a.st.chains, m.st.chains, n.chains, PolicyChains(d, infos, version),
                  ActivePods(d, ins, outs, version), active);
  }

  // Protection over time.

  /** Since `from`, references have resolved in every state and these packets have been protected. */
  ghost predicate ProtectedSince(log: seq<State>, from: nat, keys: set<Cond>) {
    forall i :: from <= i < |log| ==> Sound(log[i]) && forall key :: key in keys ==> Protected(log[i], key)
  }

  lemma GoodProtects(a: seq<State>, b: seq<State>, w: map<Cond, string>, keys: set<Cond>)
    requires Within(a, b, GoodStates(w)) && keys <= w.Keys
    ensures a <= b && ProtectedSince(b, |a|, keys)
  {
    hide Sound;
    forall i | |a| <= i < |b|
      ensures Sound(b[i]) && forall key :: key in keys ==> Protected(b[i], key)
    {
      assert b[i] in GoodStates(w) && Good(b[i], w);
      forall key | key in keys
        ensures Protected(b[i], key)
      {
        assert Guard(b[i], key, w[key]);
      }
    }
  }

  lemma ProtectedTrans(a: seq<State>, b: seq<State>, c: seq<State>, keys: set<Cond>)
    requires a <= b <= c && ProtectedSince(b, |a|, keys) && ProtectedSince(c, |b|, keys)
    ensures a <= c && ProtectedSince(c, |a|, keys)
  {
  }

  datatype Plan = Plan(infos: seq<PolicyInfo>, ins: map<Addr, PodInfo>, outs: map<Addr, PodInfo>)

  /** What the listers say, worked out for this node. */
  method MakePlan(cl: Cluster, nodeIP: string) returns (plan: Plan)
    ensures RepresentsAll(cl, plan.infos) && Keyed(plan.ins) && Keyed(plan.outs)
    ensures forall ip :: ip in plan.ins <==> Isolated(cl, nodeIP, Ingress, ip)
    ensures forall ip :: ip in plan.outs <==> Isolated(cl, nodeIP, Egress, ip)
  {
    var infos := BuildNetworkPoliciesInfo(cl);
    assert RepresentsAll(cl, infos);
    hide RepresentsAll, SomeEnabled, Isolated;
    var ins := EnabledPods(cl.pods, infos, nodeIP, Ingress);
    var outs := EnabledPods(cl.pods, infos, nodeIP, Egress);
    forall ip: Addr
      ensures ip in ins <==> Isolated(cl, nodeIP, Ingress, ip)
      ensures ip in outs <==> Isolated(cl, nodeIP, Egress, ip)
    {
      EnabledMeaning(cl, infos, nodeIP, Ingress, ip);
      EnabledMeaning(cl, infos, nodeIP, Egress, ip);
    }
    plan := Plan(infos, ins, outs);
  }

  /**
   The packets that need protection: those to the pods of the ingress loop and those from the pods
   of the egress loop.
   */
  ghost function Ways(ins: set<Addr>, outs: set<Addr>): set<Cond> {
    (set ip | ip in ins :: ToAddr(ip)) + (set ip | ip in outs :: FromAddr(ip))
  }

  ghost function GuardsOf(d: Digest, plan: Plan, version: string): map<Cond, string> {
    (map ip | ip in plan.ins :: ToAddr(ip) := ChainAt(d, plan.ins, ip, version)) +
    (map ip | ip in plan.outs :: FromAddr(ip) := ChainAt(d, plan.outs, ip, version))
  }

  lemma GuardsKeys(d: Digest, plan: Plan, version: string)
    ensures GuardsOf(d, plan, version).Keys == Ways(plan.ins.Keys, plan.outs.Keys)
  {
    hide PodChainOf;
  }

  lemma GuardsGood(d: Digest, m: State, n: State, plan: Plan, version: string, complete: bool)
    requires FirewallDone(d, m, n, plan.ins, plan.outs, plan.infos, version, complete) && Sound(n)
    ensures Good(n, GuardsOf(d, plan, version))
    ensures GuardsOf(d, plan, version).Values <= ActivePods(d, plan.ins, plan.outs, version)
  {
    hide PodsGrown, Settled, Sound, PodChainOf, Guard, BothFronted, AllLinked;
  }

  /**
   How a sync ended: `finished` when it was not aborted, `clean` when no error was passed over either,
   `listed` when cleanup could list the chains, `blocked` when the kernel refused to remove something in use.
   */
  datatype Report = Report(finished: bool, clean: bool, listed: bool, blocked: bool)

  /** Every policy set that is left belongs to this sync, and every policy and pod chain as well if `listed`. */
  ghost predicate OnlyCurrent(d: Digest, st: State, plan: Plan, version: string, listed: bool) {
    && NoLeftovers(st.sets) && (forall n :: n in st.sets && IsPolicySet(n) ==> n in Declared(AllOps(d, plan.infos)))
    && (listed ==> NoneStale(st.chains, PolicyChains(d, plan.infos, version),
                             ActivePods(d, plan.ins, plan.outs, version)))
  }

  lemma OnlyCurrentOf(d: Digest, a: Memory, m: Memory, n: State, b: State, plan: Plan, version: string,
                      active: set<string>, clean: bool, listed: bool)
    requires ValidDigest(d) && PoliciesDone(d, a, m, plan.infos, version, active, clean)
    requires ChainsCleaned(n.chains, b.chains, PolicyChains(d, plan.infos, version),
                           ActivePods(d, plan.ins, plan.outs, version), listed)
    requires SetsCleaned(n.sets, b.sets, active)
    ensures OnlyCurrent(d, b, plan, version, listed)
  {
    hide PolicyChains, ActivePods, AllWritten, NoneStale, BaseCleaned, OnlyPolicies, IsPolicySet, AllOps;
    AllNamed(d, plan.infos);
    forall s | s in b.sets && IsPolicySet(s)
      ensures |s| == SET_NAME_LENGTH && s in Declared(AllOps(d, plan.infos))
    {
      assert s in n.sets && s in active;
      assert s in Declared(AllOps(d, plan.infos));
    }
  }

  /** The chains and sets of others are as they were. */
  ghost predicate ForeignKept(a: State, b: State) {
    && (forall k :: IsForeign(k) ==>
      (k in b.chains <==> k in a.chains) && (k in a.chains ==> b.chains[k] == a.chains[k]))
    && forall n :: n in a.sets && !IsPolicySet(n) ==> n in b.sets && b.sets[n] == a.sets[n]
  }

  lemma ForeignChains(a: Chains, m: Chains, n: Chains, b: Chains, policies: set<string>, pods: set<string>,
                      listed: bool)
    requires SameExcept(m, a, policies) && SameExcept(n, m, pods + {FORWARD, OUTPUT})
    requires ChainsCleaned(n, b, policies, pods, listed)
    requires (forall c :: c in policies ==> IsPolicyChain(c)) && forall c :: c in pods ==> IsPodChain(c)
    ensures forall k :: IsForeign(k) ==> (k in b <==> k in a) && (k in a ==> b[k] == a[k])
  {
    hide NoneStale, BaseCleaned, OnlyPolicies, IsPolicyChain, IsPodChain;
  }

  lemma ForeignSets(a: Sets, m: Sets, b: Sets, ops: seq<Op>, active: set<string>)
    requires UnusedKept(a, m, ops) && SetsCleaned(m, b, active) && SyncPolicies.Named(ops)
    ensures forall n :: n in a && !IsPolicySet(n) ==> n in b && b[n] == a[n]
  {
    forall n | n in a && !IsPolicySet(n)
      ensures n in b && b[n] == a[n]
    {
      assert !UsedIn(ops, n);
      hide IsPolicySet;
    }
  }

  lemma ForeignKeptOf(d: Digest, a: Memory, m: Memory, n: State, b: State, plan: Plan, version: string,
                      active: set<string>, clean: bool, complete: bool, listed: bool)
    requires ValidDigest(d) && PoliciesDone(d, a, m, plan.infos, version, active, clean) && n.sets == m.st.sets
    requires FirewallDone(d, m.st, n, plan.ins, plan.outs, plan.infos, version, complete)
    requires ChainsCleaned(n.chains, b.chains, PolicyChains(d, plan.infos, version),
                           ActivePods(d, plan.ins, plan.outs, version), listed)
    requires SetsCleaned(n.sets, b.sets, active)
    ensures ForeignKept(a.st, b)
  {
    hide PolicyChains, ActivePods, AllWritten, AllOps, AllGuarded, AllLinked, BothFronted, IsPolicySet, Settled,
         ChainsCleaned, SetsCleaned, SameExcept, UnusedKept, Grown, IsForeign, SyncPolicies.Named, CacheFrom,
         IsPolicyChain, IsPodChain;
    AllNamed(d, plan.infos);
    ActiveNames(d, plan.infos, plan.ins, plan.outs, version);
    ForeignChains(a.st.chains, m.st.chains, n.chains, b.chains, PolicyChains(d, plan.infos, version),
                  ActivePods(d, plan.ins, plan.outs, version), listed);
    ForeignSets(a.st.sets, m.st.sets, b.sets, AllOps(d, plan.infos), active);
  }

  /** Cleanup leaves the jumps to active chains where they are. */
  lemma LinksStay(a: Chains, b: Chains, pod: PodInfo, c: string, toPod: bool, policies: set<string>, pods: set<string>,
                  listed: bool)
    requires Links(a, pod, c, toPod) && ChainsCleaned(a, b, policies, pods, listed) && c in pods
    ensures Links(b, pod, c, toPod)
  {
    if listed {
      var routed, switched := Routed(toPod, pod, c), Switched(toPod, pod, c);
      assert Names(routed) == {c} && Names(switched) == {c};
      hide Names, JumpToPod, OnlyPolicies, NoneStale;
      assert c !in StalePods(a, pods);
      ClearMembers(a[FORWARD], StalePods(a, pods));
      ClearMembers(a[OUTPUT], StalePods(a, pods));
    }
  }

  lemma AllLinksStay(d: Digest, a: Chains, b: Chains, plan: Plan, version: string, policies: set<string>, listed: bool)
    requires AllLinked(d, a, plan.ins, plan.outs, version)
    requires ChainsCleaned(a, b, policies, ActivePods(d, plan.ins, plan.outs, version), listed)
    ensures AllLinked(d, b, plan.ins, plan.outs, version)
  {
    hide Links, ChainsCleaned, PodChainOf;
    var pods := ActivePods(d, plan.ins, plan.outs, version);
    forall ip | ip in plan.ins
      ensures Links(b, plan.ins[ip], ChainAt(d, plan.ins, ip, version), true)
    {
      LinksStay(a, b, plan.ins[ip], ChainAt(d, plan.ins, ip, version), true, policies, pods, listed);
    }
    forall ip | ip in plan.outs
      ensures Links(b, plan.outs[ip], ChainAt(d, plan.outs, ip, version), false)
    {
      LinksStay(a, b, plan.outs[ip], ChainAt(d, plan.outs, ip, version), false, policies, pods, listed);
    }
  }

  lemma FirewallLinks(d: Digest, m: State, n: State, plan: Plan, version: string, complete: bool)
    requires FirewallDone(d, m, n, plan.ins, plan.outs, plan.infos, version, complete)
    ensures AllLinked(d, n.chains, plan.ins, plan.outs, version)
  {
    hide AllLinked;
  }

  /** What a sync promises of the kernel it leaves. */
  ghost predicate Promised(d: Digest, a: Memory, b: State, cl: Cluster, plan: Plan, version: string, r: Report) {
    && (r.finished ==>
      && OnlyCurrent(d, b, plan, version, r.listed) && AllLinked(d, b.chains, plan.ins, plan.outs, version)
      && ForeignKept(a.st, b))
    && (r.blocked && r.listed ==> !FreshVersion(d, a.st.chains, plan.infos, plan.ins, plan.outs, version))
    && (r.finished && r.clean && ValidInput(cl) && Orderly(d, a, plan.infos, plan.ins, plan.outs, version) ==>
          && Enforced(d, b, cl, plan.ins, plan.outs, version)
          && ForwardDecided(b, cl, plan.ins, plan.outs, OldRules(a.st.chains, FORWARD, r.listed))
          && OutputDecided(b, cl, plan.ins, OldRules(a.st.chains, OUTPUT, r.listed)))
  }

  /** A sync that was aborted promises nothing of where it ended. */
  lemma Aborted(d: Digest, a: Memory, b: State, cl: Cluster, plan: Plan, version: string)
    ensures Promised(d, a, b, cl, plan, version, Report(false, false, false, false))
  {
  }

  lemma OrderlyFresh(d: Digest, a: Memory, plan: Plan, version: string)
    requires Orderly(d, a, plan.infos, plan.ins, plan.outs, version)
    ensures FreshVersion(d, a.st.chains, plan.infos, plan.ins, plan.outs, version)
  {
  }

  /** The third phase, under the guards of the second. */
  method FinishSync(npc: Controller, cl: Cluster, plan: Plan, version: string, policies: set<string>, pods: set<string>,
                    active: set<string>, clean: bool, complete: bool, ghost a: Memory, ghost m: Memory)
    returns (r: Report)
    requires npc.Wired() && Sound(npc.kernel.Now()) && Sound(a.st)
    requires RepresentsAll(cl, plan.infos) && Keyed(plan.ins) && Keyed(plan.outs)
    requires policies == PolicyChains(npc.digest, plan.infos, version)
    requires pods == ActivePods(npc.digest, plan.ins, plan.outs, version)
    requires PoliciesDone(npc.digest, a, m, plan.infos, version, active, clean) && npc.kernel.sets == m.st.sets
    requires FirewallDone(npc.digest, m.st, npc.kernel.Now(), plan.ins, plan.outs, plan.infos, version, complete)
    modifies npc.kernel
    ensures var w := GuardsOf(npc.digest, plan, version);
            Good(npc.kernel.Now(), w) && Within(old(npc.kernel.log), npc.kernel.log, GoodStates(w))
    ensures Promised(npc.digest, a, npc.kernel.Now(), cl, plan, version, r)
    ensures old(npc.kernel.faults) <= npc.kernel.faults && r.clean == (clean && complete)
    ensures npc.kernel.faults == old(npc.kernel.faults) &&
              FreshVersion(npc.digest, a.st.chains, plan.infos, plan.ins, plan.outs, version) ==>
              r.finished && r.listed
  {
    hide AllLinked, Good, Sound, Within, PoliciesDone, FirewallDone, RepresentsAll, PolicyChains, ActivePods,
         ChainsCleaned, SetsCleaned, ActiveClosed, Orderly, Enforced, OnlyCurrent, ForeignKept, FreshVersion,
         ValidInput, GuardsOf, IsPodChain, IsPolicyChain, ForwardDecided, OutputDecided, OldRules;
    ghost var d, n := npc.digest, npc.kernel.Now();
    GuardsGood(d, m.st, n, plan, version, complete);
    ActiveNames(d, plan.infos, plan.ins, plan.outs, version);
    var ok, blocked, listed, _ := CleanupStaleRules(npc.kernel, policies, pods, active, GuardsOf(d, plan, version));
    r := Report(ok, clean && complete, listed, blocked);
    if FreshVersion(d, a.st.chains, plan.infos, plan.ins, plan.outs, version) {
      NotBlocked(d, a, m, n, plan.infos, plan.ins, plan.outs, version, active, clean, complete);
    }
    if ok {
      FirewallLinks(d, m.st, n, plan, version, complete);
      AllLinksStay(d, n.chains, npc.kernel.chains, plan, version, policies, listed);
      OnlyCurrentOf(d, a, m, n, npc.kernel.Now(), plan, version, active, clean, listed);
      ForeignKeptOf(d, a, m, n, npc.kernel.Now(), plan, version, active, clean, complete, listed);
      if r.clean && ValidInput(cl) && Orderly(d, a, plan.infos, plan.ins, plan.outs, version) {
        SyncedEnforced(d, a, m, n, npc.kernel.Now(), cl, plan.infos, plan.ins, plan.outs, version, active, listed);
        OrderlyFresh(d, a, plan, version);
        SyncedForwards(d, a, m, n, npc.kernel.Now(), cl, plan.infos, plan.ins, plan.outs, version, active, listed);
      }
    }
  }

  /** A sync that met no fault has finished if its names were fresh, and cleanly if its start was orderly. */
  ghost predicate Undisturbed(d: Digest, a: Memory, cl: Cluster, plan: Plan, version: string, r: Report) {
    && (FreshVersion(d, a.st.chains, plan.infos, plan.ins, plan.outs, version) ==> r.finished && r.listed)
    && (ValidInput(cl) && Orderly(d, a, plan.infos, plan.ins, plan.outs, version) ==> r.clean)
  }

  /** An orderly start and valid policies leave nothing in the way of the policy phase, and the version is fresh. */
  lemma OrderlySyncs(d: Digest, a: Memory, cl: Cluster, plan: Plan, version: string)
    requires RepresentsAll(cl, plan.infos) && ValidInput(cl) && Orderly(d, a, plan.infos, plan.ins, plan.outs, version)
    ensures CanSyncAll(d, a, plan.infos, version)
    ensures FreshVersion(d, a.st.chains, plan.infos, plan.ins, plan.outs, version)
  {
    hide PolicyOps, Fit, AllOps, Steady, Coherent, PolicyChains, ActivePods, RepresentsPolicy, ValidPolicy;
    forall i | 0 <= i < |plan.infos|
      ensures Fit(PolicyOps(d, plan.infos[i]))
    {
      assert cl.policies[i] in cl.policies;
      PolicyWellFormed(cl, cl.policies[i], plan.infos[i]);
      PolicyFit(d, plan.infos[i]);
    }
  }

  /**
   One sync, which any command may abort. Packets to or from an address that were guarded and still
   need it stay protected in every state on the way; `w'` says by which chains at the end.
   */
  method SyncOnce(npc: Controller, cl: Cluster, nodeIP: string, version: string, built: bool,
                  ghost w: map<Cond, string>)
    returns (plan: Plan, r: Report, ghost w': map<Cond, string>)
    requires npc.Wired() && Good(npc.kernel.Now(), w)
    modifies npc.kernel, npc.ipsets
    ensures RepresentsAll(cl, plan.infos)
    ensures forall ip :: ip in plan.ins <==> Isolated(cl, nodeIP, Ingress, ip)
    ensures forall ip :: ip in plan.outs <==> Isolated(cl, nodeIP, Egress, ip)
    ensures Good(npc.kernel.Now(), w') && old(npc.kernel.faults) <= npc.kernel.faults
    ensures old(npc.kernel.log) <= npc.kernel.log
    ensures ProtectedSince(npc.kernel.log, |old(npc.kernel.log)|, w.Keys * Ways(plan.ins.Keys, plan.outs.Keys))
    ensures w.Keys * Ways(plan.ins.Keys, plan.outs.Keys) <= w'.Keys
    ensures r.finished ==> w'.Keys == Ways(plan.ins.Keys, plan.outs.Keys)
    ensures Promised(npc.digest, Memory(old(npc.kernel.Now()), old(npc.ipsets.cache)), npc.kernel.Now(), cl, plan,
                     version, r)
    ensures built && npc.kernel.faults == old(npc.kernel.faults) ==>
              Undisturbed(npc.digest, Memory(old(npc.kernel.Now()), old(npc.ipsets.cache)), cl, plan, version, r)
  {
    hide Good, GuardsOf, Steady, AllOps, CanSyncAll, AllLinked, Stable, Sound, Within, PoliciesDone, FirewallDone,
         RepresentsAll, PolicyChains, ActivePods, Isolated, Enforced, OnlyCurrent, FreshVersion, ProtectedSince,
         Orderly, ValidInput, Guarded, Ways, Promised;
    r, w' := Report(false, false, false, false), w;
    plan := MakePlan(cl, nodeIP);
    ghost var a, keys := Memory(npc.kernel.Now(), npc.ipsets.cache), w.Keys * Ways(plan.ins.Keys, plan.outs.Keys);
    GoodSound(a.st, w);
    ghost var inv := GoodStates(w);
    GoodStable(w);
    WithinSame(npc.kernel.log, inv);
    GoodProtects(old(npc.kernel.log), npc.kernel.log, w, keys);
    Aborted(npc.digest, a, npc.kernel.Now(), cl, plan, version);
    if !built {
      return;
    }
    if ValidInput(cl) && Orderly(npc.digest, a, plan.infos, plan.ins, plan.outs, version) {
      OrderlySyncs(npc.digest, a, cl, plan, version);
    }
    var ok, policies, active, clean := SyncNetworkPolicyChains(npc, plan.infos, version, inv);
    GoodProtects(old(npc.kernel.log), npc.kernel.log, w, keys);
    Aborted(npc.digest, a, npc.kernel.Now(), cl, plan, version);
    if !ok {
      return;
    }
    ghost var m, log1 := Memory(npc.kernel.Now(), npc.ipsets.cache), npc.kernel.log;
    var pods, complete;
    ok, pods, complete := SyncPodFirewallChains(npc, plan.ins, plan.outs, plan.infos, version, inv);
    WithinTrans(old(npc.kernel.log), log1, npc.kernel.log, inv);
    GoodProtects(old(npc.kernel.log), npc.kernel.log, w, keys);
    Aborted(npc.digest, a, npc.kernel.Now(), cl, plan, version);
    if !ok {
      return;
    }
    ghost var log2 := npc.kernel.log;
    GoodSound(npc.kernel.Now(), w);
    w' := GuardsOf(npc.digest, plan, version);
    GuardsKeys(npc.digest, plan, version);
    r := FinishSync(npc, cl, plan, version, policies, pods, active, clean, complete, a, m);
    GoodProtects(log2, npc.kernel.log, w', keys);
    ProtectedTrans(old(npc.kernel.log), log2, npc.kernel.log, keys);
  }

  // Runs of syncs.

  /** What one sync meets: the cluster, the version, and whether the listed policies could be read. */
  datatype Input = Input(cl: Cluster, version: string, built: bool)

  /** The cluster asks for protection of these packets on this node. */
  ghost predicate Needs(cl: Cluster, nodeIP: string, key: Cond) {
    match key
    case ToAddr(ip) => Isolated(cl, nodeIP, Ingress, ip)
    case FromAddr(ip) => Isolated(cl, nodeIP, Egress, ip)
    case _ => false
  }

  /** Sync `i` finished and the packets have needed protection from then until before sync `n`. */
  ghost predicate Held(inputs: seq<Input>, nodeIP: string, finished: seq<bool>, i: int, n: int, key: Cond) {
    && 0 <= i < n <= |inputs| && i < |finished| && finished[i]
    && forall k :: i <= k < n ==> Needs(inputs[k].cl, nodeIP, key)
  }

  /** Everything that is held is guarded. */
  ghost predicate AllHeld(inputs: seq<Input>, nodeIP: string, finished: seq<bool>, n: int, w: map<Cond, string>) {
    forall i, key :: Held(inputs, nodeIP, finished, i, n, key) ==> key in w
  }

  /** In the states of the sync before boundary `n`, the packets held since an earlier sync are protected. */
  ghost predicate SafeSync(inputs: seq<Input>, nodeIP: string, finished: seq<bool>, log: seq<State>, from: nat, to: nat,
                           n: nat) {
    forall i, key, t :: i + 1 < n && Held(inputs, nodeIP, finished, i, n, key) && from <= t < to && t < |log| ==>
      Protected(log[t], key)
  }

  lemma HeldExtends(inputs: seq<Input>, nodeIP: string, finished: seq<bool>, r: bool, i: int, n: int, next: int,
                    key: Cond)
    requires n < next
    ensures Held(inputs, nodeIP, finished + [r], i, n, key) && i < |finished| <==>
              Held(inputs, nodeIP, finished, i, n, key)
    ensures Held(inputs, nodeIP, finished + [r], i, next, key) && i < n ==>
              Held(inputs, nodeIP, finished + [r], i, n, key)
    ensures Held(inputs, nodeIP, finished + [r], i, next, key) && i <= n ==> Needs(inputs[n].cl, nodeIP, key)
  {
    hide Needs;
  }

  /** One sync of a run: how it started and ended, what it worked out and reported, and the faults it met. */
  datatype Record = Record(start: Memory, end: Memory, plan: Plan, report: Report, faults: nat)

  /** The record is of a sync with this input, and the sync kept its promises. */
  ghost predicate Faithful(d: Digest, nodeIP: string, input: Input, h: Record) {
    && RepresentsAll(input.cl, h.plan.infos)
    && (forall ip :: ip in h.plan.ins <==> Isolated(input.cl, nodeIP, Ingress, ip))
    && (forall ip :: ip in h.plan.outs <==> Isolated(input.cl, nodeIP, Egress, ip))
    && Promised(d, h.start, h.end.st, input.cl, h.plan, input.version, h.report)
    && (input.built && h.faults == 0 ==> Undisturbed(d, h.start, input.cl, h.plan, input.version, h.report))
  }

  /** Each sync starts where the one before ended. */
  ghost predicate Chained(history: seq<Record>, start: Memory, end: Memory) {
    if history == [] then start == end
    else
      var last := history[|history| - 1];
      last.end == end && Chained(history[..|history| - 1], start, last.start)
  }

  ghost function Faults(history: seq<Record>): nat {
    if history == [] then 0 else Faults(history[..|history| - 1]) + history[|history| - 1].faults
  }

  lemma {:induction false} ChainedLink(history: seq<Record>, start: Memory, end: Memory, j: nat)
    requires Chained(history, start, end) && j + 1 < |history|
    ensures history[j].end == history[j + 1].start
  {
    var rest := history[..|history| - 1];
    if j + 1 == |rest| {
      assert rest[|rest| - 1] == history[j];
    } else {
      ChainedLink(rest, start, history[|history| - 1].start, j);
    }
  }

  lemma ChainedSnoc(history: seq<Record>, h: Record, start: Memory)
    requires Chained(history, start, h.start)
    ensures Chained(history + [h], start, h.end) && Faults(history + [h]) == Faults(history) + h.faults
  {
    assert (history + [h])[..|history|] == history;
  }

  ghost function Finished(history: seq<Record>): seq<bool> {
    if history == [] then [] else Finished(history[..|history| - 1]) + [history[|history| - 1].report.finished]
  }

  /**
   A run of syncs so far: `marks` divides the log into what each sync entered, every sync has kept its
   promises, and in each of them everything held since an earlier one was protected.
   */
  ghost predicate Ran(d: Digest, inputs: seq<Input>, nodeIP: string, history: seq<Record>, marks: seq<nat>,
                      log: seq<State>) {
    && |history| <= |inputs| && |marks| == |history| + 1 && marks[|history|] == |log|
    && (forall j :: 0 <= j < |marks| ==> marks[j] <= |log|)
    && (forall j :: 0 <= j < |history| ==> Faithful(d, nodeIP, inputs[j], history[j]))
    && forall j :: 0 < j < |marks| ==> SafeSync(inputs, nodeIP, Finished(history), log, marks[j - 1], marks[j], j)
  }

  lemma RanNone(d: Digest, inputs: seq<Input>, nodeIP: string, log: seq<State>)
    ensures Ran(d, inputs, nodeIP, [], [|log|], log)
  {
  }

  lemma {:induction false} FinishedLength(history: seq<Record>)
    ensures |Finished(history)| == |history|
  {
    if history != [] {
      FinishedLength(history[..|history| - 1]);
    }
  }

  lemma FinishedSnoc(history: seq<Record>, h: Record)
    ensures Finished(history + [h]) == Finished(history) + [h.report.finished] && |Finished(history)| == |history|
  {
    FinishedLength(history);
    assert (history + [h])[..|history|] == history;
  }

  lemma SafeStays(inputs: seq<Input>, nodeIP: string, finished: seq<bool>, r: bool, before: seq<State>, log: seq<State>,
                  from: nat, to: nat, n: nat)
    requires SafeSync(inputs, nodeIP, finished, before, from, to, n) && before <= log && to <= |before|
    requires n <= |finished|
    ensures SafeSync(inputs, nodeIP, finished + [r], log, from, to, n)
  {
    hide Needs, Protected;
    forall i, key, t | i + 1 < n && Held(inputs, nodeIP, finished + [r], i, n, key) && from <= t < to && t < |log|
      ensures Protected(log[t], key)
    {
      HeldExtends(inputs, nodeIP, finished, r, i, n, n + 1, key);
      assert log[t] == before[t];
    }
  }

  /** One more sync. */
  lemma RanOne(d: Digest, inputs: seq<Input>, nodeIP: string, history: seq<Record>, marks: seq<nat>, before: seq<State>,
               h: Record, log: seq<State>)
    requires Ran(d, inputs, nodeIP, history, marks, before) && |history| < |inputs| && before <= log
    requires Faithful(d, nodeIP, inputs[|history|], h)
    requires SafeSync(inputs, nodeIP, Finished(history) + [h.report.finished], log, |before|, |log|, |history| + 1)
    ensures Ran(d, inputs, nodeIP, history + [h], marks + [|log|], log)
  {
    hide Faithful, SafeSync;
    var more, all := history + [h], marks + [|log|];
    FinishedSnoc(history, h);
    forall j | 0 <= j < |more|
      ensures Faithful(d, nodeIP, inputs[j], more[j])
    {
      assert j < |history| ==> more[j] == history[j];
    }
    forall j | 0 < j < |all|
      ensures SafeSync(inputs, nodeIP, Finished(more), log, all[j - 1], all[j], j)
    {
      if j < |marks| {
        assert all[j - 1] == marks[j - 1] && all[j] == marks[j];
        SafeStays(inputs, nodeIP, Finished(history), h.report.finished, before, log, marks[j - 1], marks[j], j);
      }
    }
  }

  lemma StartGood(st: State)
    requires Sound(st)
    ensures Good(st, map[])
  {
  }

  lemma NothingYet(log: seq<State>)
    ensures ProtectedSince(log, |log|, {})
  {
  }

  lemma NoneHeld(inputs: seq<Input>, nodeIP: string)
    ensures AllHeld(inputs, nodeIP, [], 0, map[])
  {
  }

  lemma ProtectedFewer(b: seq<State>, c: seq<State>, a: seq<State>, keys: set<Cond>)
    requires a <= b <= c && ProtectedSince(b, |a|, {}) && ProtectedSince(c, |b|, keys)
    ensures a <= c && ProtectedSince(c, |a|, {})
  {
    hide Sound;
  }

  /** The plan of a sync covers exactly what the cluster asks for. */
  lemma PlanCovers(d: Digest, nodeIP: string, input: Input, h: Record)
    requires Faithful(d, nodeIP, input, h)
    ensures forall key :: key in Ways(h.plan.ins.Keys, h.plan.outs.Keys) <==> Needs(input.cl, nodeIP, key)
  {
    hide Isolated, Promised, RepresentsAll, Undisturbed;
  }

  lemma HeldStep(inputs: seq<Input>, nodeIP: string, finished: seq<bool>, r: bool, n: nat, next: nat,
                 w: map<Cond, string>, w': map<Cond, string>, keys: set<Cond>)
    requires n < |inputs| && |finished| == n && next == n + 1 && AllHeld(inputs, nodeIP, finished, n, w)
    requires forall key :: key in keys <==> Needs(inputs[n].cl, nodeIP, key)
    requires w.Keys * keys <= w'.Keys && (r ==> w'.Keys == keys)
    ensures AllHeld(inputs, nodeIP, finished + [r], next, w')
  {
    forall i, key | Held(inputs, nodeIP, finished + [r], i, next, key)
      ensures key in w'
    {
      HeldExtends(inputs, nodeIP, finished, r, i, n, next, key);
      hide Needs;
      assert i < next;
    }
  }

  lemma SafeNow(inputs: seq<Input>, nodeIP: string, finished: seq<bool>, r: bool, n: nat, next: nat,
                w: map<Cond, string>, keys: set<Cond>, log: seq<State>, from: nat)
    requires n < |inputs| && |finished| == n && next == n + 1 && ProtectedSince(log, from, w.Keys * keys)
    requires AllHeld(inputs, nodeIP, finished, n, w)
    requires forall key :: key in keys <==> Needs(inputs[n].cl, nodeIP, key)
    ensures SafeSync(inputs, nodeIP, finished + [r], log, from, |log|, next)
  {
    hide Needs, Sound, Protected;
    forall i, key, t | i + 1 < next && Held(inputs, nodeIP, finished + [r], i, next, key) && from <= t < |log|
      ensures Protected(log[t], key)
    {
      HeldExtends(inputs, nodeIP, finished, r, i, n, next, key);
      assert key in w.Keys * keys;
    }
  }

  /** Where one more sync leaves a run. */
  lemma RunStep(d: Digest, inputs: seq<Input>, nodeIP: string, history: seq<Record>, marks: seq<nat>, first: seq<State>,
                before: seq<State>, log: seq<State>, w: map<Cond, string>, w': map<Cond, string>, h: Record)
    requires Ran(d, inputs, nodeIP, history, marks, before) && |history| < |inputs| && first <= before <= log
    requires AllHeld(inputs, nodeIP, Finished(history), |history|, w) && ProtectedSince(before, |first|, {})
    requires Faithful(d, nodeIP, inputs[|history|], h)
    requires ProtectedSince(log, |before|, w.Keys * Ways(h.plan.ins.Keys, h.plan.outs.Keys))
    requires w.Keys * Ways(h.plan.ins.Keys, h.plan.outs.Keys) <= w'.Keys
    requires h.report.finished ==> w'.Keys == Ways(h.plan.ins.Keys, h.plan.outs.Keys)
    ensures Ran(d, inputs, nodeIP, history + [h], marks + [|log|], log)
    ensures AllHeld(inputs, nodeIP, Finished(history + [h]), |history| + 1, w')
    ensures first <= log && ProtectedSince(log, |first|, {})
  {
    hide Ran, AllHeld, ProtectedSince, Faithful, Needs, Ways, SafeSync, Finished;
    var n, keys := |history|, Ways(h.plan.ins.Keys, h.plan.outs.Keys);
    PlanCovers(d, nodeIP, inputs[n], h);
    FinishedSnoc(history, h);
    HeldStep(inputs, nodeIP, Finished(history), h.report.finished, n, n + 1, w, w', keys);
    SafeNow(inputs, nodeIP, Finished(history), h.report.finished, n, n + 1, w, keys, log, |before|);
    RanOne(d, inputs, nodeIP, history, marks, before, h, log);
    ProtectedFewer(before, log, first, w.Keys * keys);
  }

  /** All that an orderly start asks for, except that there may be leftovers. */
  ghost predicate OrderlyButLeftovers(d: Digest, a: Memory, plan: Plan, version: string) {
    && FreshVersion(d, a.st.chains, plan.infos, plan.ins, plan.outs, version)
    && DistinctPolicyChains(d, plan.infos, version) && InjectivePods(d, plan.ins, plan.outs, version)
    && CacheAgrees(a.cache, AllOps(d, plan.infos)) && KindsAgree(a.st.sets, AllOps(d, plan.infos))
    && Coherent(AllOps(d, plan.infos))
  }

  lemma OrderlyWithout(d: Digest, a: Memory, plan: Plan, version: string)
    requires OrderlyButLeftovers(d, a, plan, version) && NoLeftovers(a.st.sets)
    ensures Orderly(d, a, plan.infos, plan.ins, plan.outs, version)
  {
  }

  /**
   Recovery: whatever the syncs before have left behind, two successive syncs of a run that meet no
   fault under fresh names end with every policy of the second enforced.
   */
  lemma Recovers(d: Digest, inputs: seq<Input>, nodeIP: string, history: seq<Record>, marks: seq<nat>, log: seq<State>,
                 start: Memory, end: Memory, j: nat)
    requires Ran(d, inputs, nodeIP, history, marks, log) && Chained(history, start, end) && j + 1 < |history|
    requires forall i :: j <= i <= j + 1 ==> inputs[i].built && history[i].faults == 0
    requires FreshVersion(d, history[j].start.st.chains, history[j].plan.infos, history[j].plan.ins,
                          history[j].plan.outs, inputs[j].version)
    requires ValidInput(inputs[j + 1].cl)
    requires OrderlyButLeftovers(d, history[j + 1].start, history[j + 1].plan, inputs[j + 1].version)
    ensures var cl, h := inputs[j + 1].cl, history[j + 1];
            && h.report.finished && h.report.clean && h.report.listed
            && Enforced(d, h.end.st, cl, h.plan.ins, h.plan.outs, inputs[j + 1].version)
            && ForwardDecided(h.end.st, cl, h.plan.ins, h.plan.outs, OldRules(h.start.st.chains, FORWARD, true))
            && OutputDecided(h.end.st, cl, h.plan.ins, OldRules(h.start.st.chains, OUTPUT, true))
  {
    hide FreshVersion, OrderlyButLeftovers, Orderly, Enforced, ForwardDecided, OutputDecided, OldRules, RepresentsAll,
         ValidInput, AllLinked, NoneStale, NoLeftovers, SafeSync, Chained, Isolated;
    ChainedLink(history, start, end, j);
    var first, second := history[j], history[j + 1];
    assert Faithful(d, nodeIP, inputs[j], first) && Faithful(d, nodeIP, inputs[j + 1], second);
    OrderlyWithout(d, second.start, second.plan, inputs[j + 1].version);
    OrderlyFresh(d, second.start, second.plan, inputs[j + 1].version);
  }

  /**
   Protection continuity: over every run of syncs, each of which any command may abort, the packets to
   or from an address that a finished sync has covered and that still need protection are protected in
   every state of every later sync; references resolve in every state of the run; and every sync of the
   run keeps its promises, starting where the one before ended.
   */
  method RunSyncs(npc: Controller, nodeIP: string, inputs: seq<Input>)
    returns (ghost marks: seq<nat>, ghost history: seq<Record>)
    requires npc.Wired() && Sound(npc.kernel.Now())
    modifies npc.kernel, npc.ipsets
    ensures |history| == |inputs| && Ran(npc.digest, inputs, nodeIP, history, marks, npc.kernel.log)
    ensures marks[0] == |old(npc.kernel.log)| && old(npc.kernel.log) <= npc.kernel.log
    ensures ProtectedSince(npc.kernel.log, marks[0], {})
    ensures Chained(history, Memory(old(npc.kernel.Now()), old(npc.ipsets.cache)),
                    Memory(npc.kernel.Now(), npc.ipsets.cache))
    ensures npc.kernel.faults == old(npc.kernel.faults) + Faults(history)
  {
    hide Good, ProtectedSince, Held, AllHeld, Isolated, Promised, RepresentsAll, Undisturbed, Ran, Ways, Finished;
    ghost var w: map<Cond, string> := map[];
    ghost var first, start := npc.kernel.log, Memory(npc.kernel.Now(), npc.ipsets.cache);
    StartGood(npc.kernel.Now());
    marks, history := [|npc.kernel.log|], [];
    NothingYet(npc.kernel.log);
    NoneHeld(inputs, nodeIP);
    FinishedLength([]);
    RanNone(npc.digest, inputs, nodeIP, npc.kernel.log);
    for n := 0 to |inputs|
      invariant |history| == n && |marks| == n + 1 && marks[0] == |first| && first <= npc.kernel.log
      invariant Good(npc.kernel.Now(), w) && ProtectedSince(npc.kernel.log, |first|, {})
      invariant AllHeld(inputs, nodeIP, Finished(history), n, w)
      invariant Ran(npc.digest, inputs, nodeIP, history, marks, npc.kernel.log)
      invariant Chained(history, start, Memory(npc.kernel.Now(), npc.ipsets.cache))
      invariant npc.kernel.faults == old(npc.kernel.faults) + Faults(history)
    {
      ghost var log1, faults, before := npc.kernel.log, npc.kernel.faults, Memory(npc.kernel.Now(), npc.ipsets.cache);
      var plan, r;
      ghost var w';
      plan, r, w' := SyncOnce(npc, inputs[n].cl, nodeIP, inputs[n].version, inputs[n].built, w);
      ghost var h := Record(before, Memory(npc.kernel.Now(), npc.ipsets.cache), plan, r, npc.kernel.faults - faults);
      assert Faithful(npc.digest, nodeIP, inputs[n], h);
      hide Faithful;
      RunStep(npc.digest, inputs, nodeIP, history, marks, first, log1, npc.kernel.log, w, w', h);
      ChainedSnoc(history, h, start);
      marks, history, w := marks + [|npc.kernel.log|], history + [h], w';
    }
  }
}
