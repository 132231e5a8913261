/** Orderly starts, from a digest that tells the texts in use apart and from what a plan says. */
module PlanNames {
  import opened Basics
  import opened Netfilter
  import opened Kernel
  import opened Text
  import opened Naming
  import opened NameTexts
  import opened Policies
  import opened Compile
  import opened CompileSets
  import opened PodChains
  import opened Sync
  import opened SyncPolicies
  import opened SyncPods
  import opened Cleanup
  import opened Distinctness
  import opened Reconcile

  /** The digest confuses no set texts of the plan, no texts of policy chains and none of pod chains. */
  ghost predicate TellsApart(d: Digest, plan: Plan, version: string) {
    && NoCollision(d, SetTexts(plan.infos)) && NoCollision(d, PolicyTexts(plan.infos, version))
    && NoCollision(d, PodTexts(plan.ins, plan.outs, version))
  }

  /** Policies and pods run together to texts of their own. */
  ghost predicate Distinct(plan: Plan) {
    Separate(plan.infos) && AllUnambiguous(plan.infos) && DistinctPods(plan.ins, plan.outs)
  }

  /** With such a digest and such a plan, a start is orderly when its version is fresh and nothing is in its way. */
  lemma OrderlyByNames(d: Digest, a: Memory, plan: Plan, version: string)
    requires TellsApart(d, plan, version) && Distinct(plan)
    requires FreshVersion(d, a.st.chains, plan.infos, plan.ins, plan.outs, version)
    requires Steady(a, AllOps(d, plan.infos))
    ensures Orderly(d, a, plan.infos, plan.ins, plan.outs, version)
  {
    hide NoCollision, Coherent, AllOps, Steady, FreshVersion, AllUnambiguous, DistinctPods, DistinctPolicyChains,
         InjectivePods, SetTexts, PolicyTexts, PodTexts;
    SeparateCoherent(d, plan.infos);
    PodChainsExactly(d, plan.ins, plan.outs, version);
    PolicyChainsExactly(d, plan.infos, version);
    hide Coherent, BaseOf;
  }

  /** Nothing of the agent's is there yet. */
  ghost predicate Cold(a: Memory) {
    && (forall c :: c in a.st.chains ==> !IsPolicyChain(c) && !IsPodChain(c))
    && (forall n :: n in a.st.sets ==> !IsPolicySet(n))
    && a.cache == map[]
  }

  lemma {:induction false} OpsNameSets(d: Digest, infos: seq<PolicyInfo>, op: Op)
    requires op in AllOps(d, infos) && !op.AppendOp?
    ensures IsPolicySet(op.name)
  {
    hide AllOps, Used, EntriesFor, KindFor;
    var i, u := OpServes(d, infos, op);
    NamedByText(d, infos[i], u);
    hide NameFor, TextFor;
  }

  /** The first sync of all starts in order, whatever its version. */
  lemma ColdOrderly(d: Digest, a: Memory, plan: Plan, version: string)
    requires TellsApart(d, plan, version) && Distinct(plan) && Cold(a)
    ensures Orderly(d, a, plan.infos, plan.ins, plan.outs, version)
  {
    hide TellsApart, Distinct, AllOps, Orderly, IsPolicySet;
    ActiveNames(d, plan.infos, plan.ins, plan.outs, version);
    forall op | op in AllOps(d, plan.infos) && !op.AppendOp?
      ensures IsPolicySet(op.name)
    {
      OpsNameSets(d, plan.infos, op);
    }
    assert NoLeftovers(a.st.sets);
    assert Steady(a, AllOps(d, plan.infos));
    OrderlyByNames(d, a, plan, version);
  }

  /** The digest confuses no chain text of one plan with one of the other. */
  ghost predicate TellsVersions(d: Digest, plan: Plan, version: string, plan': Plan, version': string) {
    && (forall s, t :: s in PolicyTexts(plan.infos, version) && t in PolicyTexts(plan'.infos, version') ==>
          !CollidesOn(d, s, t))
    && forall s, t :: s in PodTexts(plan.ins, plan.outs, version) && t in PodTexts(plan'.ins, plan'.outs, version') ==>
         !CollidesOn(d, s, t)
  }

  lemma PoliciesApart(d: Digest, plan: Plan, version: string, plan': Plan, version': string, c: string)
    requires TellsVersions(d, plan, version, plan', version') && |version| == |version'| && version != version'
    requires c in PolicyChains(d, plan.infos, version)
    ensures c !in PolicyChains(d, plan'.infos, version')
  {
    hide PolicyChainOf, BaseOf, CollidesOn;
    if c in PolicyChains(d, plan'.infos, version') {
      var i :| 0 <= i < |plan.infos| && PolicyChainOf(d, plan.infos[i], version) == c;
      var k :| 0 <= k < |plan'.infos| && PolicyChainOf(d, plan'.infos[k], version') == c;
      var s, t := BaseOf(plan.infos[i]) + version, BaseOf(plan'.infos[k]) + version';
      assert s in PolicyTexts(plan.infos, version) && t in PolicyTexts(plan'.infos, version');
      PolicyChainsAlike(d, plan.infos[i], version, plan'.infos[k], version');
      SameEnds(BaseOf(plan.infos[i]), version, BaseOf(plan'.infos[k]), version');
    }
  }

  lemma PodOf(d: Digest, plan: Plan, version: string, c: string) returns (p: PodInfo)
    requires c in ActivePods(d, plan.ins, plan.outs, version)
    ensures p in plan.ins.Values + plan.outs.Values && PodChainOf(d, p, version) == c
  {
    hide PodChainOf;
    if ip :| ip in plan.ins && ChainAt(d, plan.ins, ip, version) == c {
      p := plan.ins[ip];
    } else {
      var ip :| ip in plan.outs && ChainAt(d, plan.outs, ip, version) == c;
      p := plan.outs[ip];
    }
  }

  lemma PodsApart(d: Digest, plan: Plan, version: string, plan': Plan, version': string, c: string)
    requires TellsVersions(d, plan, version, plan', version') && |version| == |version'| && version != version'
    requires c in ActivePods(d, plan.ins, plan.outs, version)
    ensures c !in ActivePods(d, plan'.ins, plan'.outs, version')
  {
    hide PodChainOf, PodText, CollidesOn, ActivePods;
    if c in ActivePods(d, plan'.ins, plan'.outs, version') {
      var p := PodOf(d, plan, version, c);
      var q := PodOf(d, plan', version', c);
      var s, t := PodText(p) + version, PodText(q) + version';
      assert s in PodTexts(plan.ins, plan.outs, version) && t in PodTexts(plan'.ins, plan'.outs, version');
      PodChainsAlike(d, p, version, q, version');
      SameEnds(PodText(p), version, PodText(q), version');
    }
  }

  /** After a sync that could list the chains, another version of the same length is fresh. */
  lemma NextVersionFresh(d: Digest, st: State, plan: Plan, version: string, plan': Plan, version': string)
    requires OnlyCurrent(d, st, plan, version, true)
    requires TellsVersions(d, plan, version, plan', version') && |version| == |version'| && version != version'
    ensures FreshVersion(d, st.chains, plan'.infos, plan'.ins, plan'.outs, version')
  {
    hide TellsVersions, PolicyChains, ActivePods, IsPolicyChain, IsPodChain, NoLeftovers;
    ActiveNames(d, plan'.infos, plan'.ins, plan'.outs, version');
    forall c | c in st.chains
      ensures c !in PolicyChains(d, plan'.infos, version') && c !in ActivePods(d, plan'.ins, plan'.outs, version')
    {
      if c in PolicyChains(d, plan.infos, version) {
        PoliciesApart(d, plan, version, plan', version', c);
      }
      if c in ActivePods(d, plan.ins, plan.outs, version) {
        PodsApart(d, plan, version, plan', version', c);
      }
    }
  }

  // A policy with two rules, which let two addresses in on a port each.

  function OnPort(a: Addr, port: string): RuleInfo {
    RuleInfo(false, [PortMatch("tcp", port)], [], false, [a], [])
  }

  const TWO_RULES := PolicyInfo("ns", "web", [9], true, false, [OnPort(1, "80"), OnPort(2, "443")], [])
  const TWO_RULES_PLAN := Plan([TWO_RULES], map[9 := PodInfo(9, "ns", "pod")], map[])

  lemma TwoRulesDistinct()
    ensures Distinct(TWO_RULES_PLAN)
  {
    var infos := [TWO_RULES];
    TenRulesUnambiguous(TWO_RULES);
    forall v: SetUse | Used(TWO_RULES, v) && !v.Targets?
      ensures BaseOf(TWO_RULES) != TextFor(TWO_RULES, v)
    {
      TailIsTail(v);
      TailGrows(BaseOf(TWO_RULES), TailFor(v));
    }
    hide Unambiguous, Used;
    assert Separate(infos);
    var ins, outs: map<Addr, PodInfo> := TWO_RULES_PLAN.ins, map[];
    assert forall p :: p in ins.Values + outs.Values ==> p == PodInfo(9, "ns", "pod");
  }

  /** Its first sync starts in order, and its rules have sets of their own. */
  lemma TwoRulesOrderly(d: Digest, a: Memory, version: string)
    requires TellsApart(d, TWO_RULES_PLAN, version) && Cold(a)
    ensures Orderly(d, a, TWO_RULES_PLAN.infos, TWO_RULES_PLAN.ins, TWO_RULES_PLAN.outs, version)
    ensures PeerSet(d, TWO_RULES, Ingress, 0) != PeerSet(d, TWO_RULES, Ingress, 1)
  {
    TwoRulesDistinct();
    hide Distinct, NoCollision;
    ColdOrderly(d, a, TWO_RULES_PLAN, version);
    SetsOfPolicy(d, TWO_RULES, Pods(Ingress, 0), Pods(Ingress, 1));
  }

  /** A digest that tells the texts of this plan apart. */
  function SampleDigest(s: string): string {
    if s == "nswebingressrule0pod" then "AAAAAAAAAAAAAAAA"
    else if s == "nswebingressrule1pod" then "BBBBBBBBBBBBBBBB"
    else "CCCCCCCCCCCCCCCC"
  }

  lemma TwoRulesTexts(u: SetUse)
    requires Used(TWO_RULES, u)
    ensures TextFor(TWO_RULES, u) in {"nsweb", "nswebingressrule0pod", "nswebingressrule1pod"}
  {
    var base := BaseOf(TWO_RULES);
    assert base == "nsweb" && Itoa(0) == "0" && Itoa(1) == "1";
    if !u.Targets? {
      assert u.Pods? && u.dir == Ingress && (u.rule == 0 || u.rule == 1);
      assert base + "ingressrule" + "0" + "pod" == "nswebingressrule0pod";
      assert base + "ingressrule" + "1" + "pod" == "nswebingressrule1pod";
    }
  }

  /** There are digests as these results ask for. */
  lemma TwoRulesTold(version: string)
    ensures ValidDigest(SampleDigest) && TellsApart(SampleDigest, TWO_RULES_PLAN, version)
  {
    var plan := TWO_RULES_PLAN;
    forall s | s in SetTexts(plan.infos)
      ensures s in {"nsweb", "nswebingressrule0pod", "nswebingressrule1pod"}
    {
      var i, u :| 0 <= i < |plan.infos| && Used(plan.infos[i], u) && s == TextFor(plan.infos[i], u);
      TwoRulesTexts(u);
    }
    assert forall s :: s in PolicyTexts(plan.infos, version) ==> s == BaseOf(TWO_RULES) + version;
    assert forall p :: p in plan.ins.Values + plan.outs.Values ==> p == PodInfo(9, "ns", "pod");
    hide SetTexts, PolicyTexts, TextFor, BaseOf;
  }
}
