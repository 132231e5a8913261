/** The rules of a pod's firewall chain, the form the chain settles in, and its verdict. */
module PodChains {
  import opened Basics
  import opened Netfilter
  import opened Naming
  import opened Policies
  import opened Firewall

  datatype PodInfo = PodInfo(ip: Addr, namespace: string, name: string)

  function PodChainOf(d: Digest, pod: PodInfo, version: string): string {
    PodFirewallChain(d, pod.namespace, pod.name, version)
  }

  function PolicyChainOf(d: Digest, info: PolicyInfo, version: string): string {
    PolicyChain(d, info.namespace, info.name, version)
  }

  function RunThrough(d: Digest, info: PolicyInfo, version: string): Rule {
    Rule(RunThroughPolicy(info.name), [], Jump(PolicyChainOf(d, info, version)))
  }

  const STATEFUL := Rule(StatefulPod, [Established], Accept)

  function LocalNode(ip: Addr): Rule {
    Rule(LocalToPod, [FromLocal, ToAddr(ip)], Accept)
  }

  function RejectRest(pod: PodInfo): Rule {
    Rule(RejectFor(pod.namespace, pod.name), [], Reject)
  }

  /** A jump from a base chain to a pod's chain. */
  function JumpToPod(toPod: bool, pod: PodInfo, chain: string, conds: seq<Cond>): Rule {
    Rule(JumpFor(toPod, pod.namespace, pod.name, chain), conds, Jump(chain))
  }

  /** The packets to or from an address. */
  function Way(toPod: bool, ip: Addr): Cond {
    if toPod then ToAddr(ip) else FromAddr(ip)
  }

  /** The jump for all packets of a pod in one direction, and the one for those that cross a bridge. */
  function Routed(toPod: bool, pod: PodInfo, c: string): Rule {
    JumpToPod(toPod, pod, c, [Way(toPod, pod.ip)])
  }

  function Switched(toPod: bool, pod: PodInfo, c: string): Rule {
    JumpToPod(toPod, pod, c, [Bridged, Way(toPod, pod.ip)])
  }

  /** The jumps to the policies that target an address, in policy order. */
  function Jumps(d: Digest, infos: seq<PolicyInfo>, version: string, ip: Addr): seq<Rule> {
    if infos == [] then []
    else
      var n := |infos| - 1;
      Jumps(d, infos[..n], version, ip) + if ip in infos[n].targets then [RunThrough(d, infos[n], version)] else []
  }

  lemma RunThroughLayered(d: Digest, info: PolicyInfo, version: string, c: string)
    requires IsPodChain(c)
    ensures var r := RunThrough(d, info, version);
            Layered(c, r) && !Final(r) && Names(r) == {PolicyChainOf(d, info, version)}
  {
    ChainKindsDisjoint(PolicyChainOf(d, info, version));
  }

  /** Insert at the front unless present. */
  function FrontOf(rules: seq<Rule>, r: Rule): seq<Rule> {
    if r in rules then rules else [r] + rules
  }

  /** Append unless present. */
  function BackOf(rules: seq<Rule>, r: Rule): seq<Rule> {
    if r in rules then rules else rules + [r]
  }

  function FrontAll(rules: seq<Rule>, more: seq<Rule>): seq<Rule> {
    if more == [] then rules else FrontOf(FrontAll(rules, more[..|more| - 1]), more[|more| - 1])
  }

  /** What one pass of the ingress loop makes of a pod's chain. */
  function IngressPass(rules: seq<Rule>, pod: PodInfo, jumps: seq<Rule>): seq<Rule> {
    FrontOf(BackOf(FrontOf(FrontAll(rules, jumps), LocalNode(pod.ip)), RejectRest(pod)), STATEFUL)
  }

  /** What one pass of the egress loop makes of a pod's chain. */
  function EgressPass(rules: seq<Rule>, pod: PodInfo, jumps: seq<Rule>): seq<Rule> {
    FrontOf(BackOf(FrontAll(rules, jumps), RejectRest(pod)), STATEFUL)
  }

  lemma JumpsStep(d: Digest, infos: seq<PolicyInfo>, version: string, ip: Addr, i: nat, rules: seq<Rule>)
    requires i < |infos|
    ensures FrontAll(rules, Jumps(d, infos[..i + 1], version, ip)) ==
            var done := FrontAll(rules, Jumps(d, infos[..i], version, ip));
            if ip in infos[i].targets then FrontOf(done, RunThrough(d, infos[i], version)) else done
  {
    assert infos[..i + 1][..i] == infos[..i];
    var done, r := Jumps(d, infos[..i], version, ip), RunThrough(d, infos[i], version);
    assert (done + [r])[..|done|] == done && done + [] == done;
  }

  function Reversed(s: seq<Rule>): seq<Rule> {
    if s == [] then [] else [s[|s| - 1]] + Reversed(s[..|s| - 1])
  }

  function Heads(pod: PodInfo, ingress: bool): seq<Rule> {
    [STATEFUL] + if ingress then [LocalNode(pod.ip)] else []
  }

  /** The settled form: stateful accept, local-node accept for ingress pods, the policy jumps, one REJECT. */
  function NormalForm(pod: PodInfo, jumps: seq<Rule>, ingress: bool): seq<Rule> {
    Heads(pod, ingress) + Reversed(jumps) + [RejectRest(pod)]
  }

  lemma {:induction false} ReversedMembers(s: seq<Rule>)
    ensures |Reversed(s)| == |s|
    ensures forall r :: r in Reversed(s) <==> r in s
  {
    if s != [] {
      ReversedMembers(s[..|s| - 1]);
      assert s == s[..|s| - 1] + [s[|s| - 1]];
    }
  }

  lemma {:induction false} JumpsAreJumps(d: Digest, infos: seq<PolicyInfo>, version: string, ip: Addr)
    ensures forall r :: r in Jumps(d, infos, version, ip) <==>
              exists i :: 0 <= i < |infos| && ip in infos[i].targets && r == RunThrough(d, infos[i], version)
  {
    if infos != [] {
      var n := |infos| - 1;
      JumpsAreJumps(d, infos[..n], version, ip);
      assert forall i :: 0 <= i < n ==> infos[..n][i] == infos[i];
    }
  }

  ghost predicate DistinctPolicyChains(d: Digest, infos: seq<PolicyInfo>, version: string) {
    forall i, j :: 0 <= i < j < |infos| ==> PolicyChainOf(d, infos[i], version) != PolicyChainOf(d, infos[j], version)
  }

  lemma NoRepeatsSnoc(s: seq<Rule>, r: Rule)
    requires NoRepeats(s) && r !in s
    ensures NoRepeats(s + [r])
  {
    forall i, j | 0 <= i < j < |s + [r]|
      ensures (s + [r])[i] != (s + [r])[j]
    {
      assert j == |s| ==> s[i] in s;
    }
  }

  lemma {:induction false} JumpsNoRepeats(d: Digest, infos: seq<PolicyInfo>, version: string, ip: Addr)
    requires DistinctPolicyChains(d, infos, version)
    ensures NoRepeats(Jumps(d, infos, version, ip))
  {
    if infos != [] {
      var n := |infos| - 1;
      JumpsNoRepeats(d, infos[..n], version, ip);
      JumpsAreJumps(d, infos[..n], version, ip);
      var front, last := Jumps(d, infos[..n], version, ip), RunThrough(d, infos[n], version);
      forall r | r in front
        ensures r != last
      {
        var i :| 0 <= i < n && r == RunThrough(d, infos[..n][i], version);
        assert infos[..n][i] == infos[i];
      }
      NoRepeatsSnoc(front, last);
    }
  }

  lemma {:induction false} FrontAllFresh(jumps: seq<Rule>)
    requires NoRepeats(jumps)
    ensures FrontAll([], jumps) == Reversed(jumps)
  {
    if jumps != [] {
      var n := |jumps| - 1;
      FrontAllFresh(jumps[..n]);
      ReversedMembers(jumps[..n]);
      assert jumps[n] !in jumps[..n];
    }
  }

  lemma {:induction false} FrontAllPresent(rules: seq<Rule>, jumps: seq<Rule>)
    requires forall r :: r in jumps ==> r in rules
    ensures FrontAll(rules, jumps) == rules
  {
    if jumps != [] {
      FrontAllPresent(rules, jumps[..|jumps| - 1]);
    }
  }

  /** The rules of a pod's chain that are no jumps are none of these. */
  lemma NotAmongJumps(pod: PodInfo, rules: seq<Rule>)
    requires forall r :: r in rules ==> r.target.Jump?
    ensures LocalNode(pod.ip) !in rules && RejectRest(pod) !in rules && STATEFUL !in rules
  {
  }

  lemma FreshPasses(pod: PodInfo, jumps: seq<Rule>)
    requires NoRepeats(jumps) && forall r :: r in jumps ==> r.target.Jump?
    ensures IngressPass([], pod, jumps) == NormalForm(pod, jumps, true)
    ensures EgressPass([], pod, jumps) == NormalForm(pod, jumps, false)
  {
    FrontAllFresh(jumps);
    ReversedMembers(jumps);
    var rev, last := Reversed(jumps), RejectRest(pod);
    hide Reversed, NoRepeats, FrontAll;
    NotAmongJumps(pod, rev);
    var a := [LocalNode(pod.ip)] + rev;
    assert last !in a && STATEFUL !in a + [last] && STATEFUL !in rev + [last];
    assert [STATEFUL] + (a + [last]) == NormalForm(pod, jumps, true);
    assert [STATEFUL] + (rev + [last]) == NormalForm(pod, jumps, false);
  }

  lemma SecondPass(pod: PodInfo, jumps: seq<Rule>)
    ensures EgressPass(NormalForm(pod, jumps, true), pod, jumps) == NormalForm(pod, jumps, true)
  {
    ReversedMembers(jumps);
    hide Reversed, FrontAll;
    var n := NormalForm(pod, jumps, true);
    assert n[0] == STATEFUL && n[|n| - 1] == RejectRest(pod);
    assert forall r :: r in Reversed(jumps) ==> r in n;
    FrontAllPresent(n, jumps);
  }

  /**
   A fresh chain settles in the normal form after one pass of either loop, and a second pass of
   the egress loop over an ingress pod's chain changes nothing.
   */
  lemma SettlesInNormalForm(d: Digest, infos: seq<PolicyInfo>, version: string, pod: PodInfo)
    requires DistinctPolicyChains(d, infos, version)
    ensures var jumps := Jumps(d, infos, version, pod.ip);
            && IngressPass([], pod, jumps) == NormalForm(pod, jumps, true)
            && EgressPass([], pod, jumps) == NormalForm(pod, jumps, false)
            && EgressPass(NormalForm(pod, jumps, true), pod, jumps) == NormalForm(pod, jumps, true)
  {
    hide Jumps, NormalForm, IngressPass, EgressPass, DistinctPolicyChains, NoRepeats;
    var jumps := Jumps(d, infos, version, pod.ip);
    JumpsNoRepeats(d, infos, version, pod.ip);
    JumpsAreJumps(d, infos, version, pod.ip);
    FreshPasses(pod, jumps);
    SecondPass(pod, jumps);
  }

  // The verdict.

  ghost predicate AcceptChain(rules: seq<Rule>) {
    forall r :: r in rules ==> r.target == Accept
  }

  lemma AcceptChainRun(rules: seq<Rule>, st: State, p: Packet, depth: nat)
    requires AcceptChain(rules)
    ensures Run(rules, st, p, depth) == if exists r :: r in rules && Matches(r, p, st.sets) then Accepted else Returned
  {
    AcceptOnlyRun(rules, [], st, p, depth);
    assert rules + [] == rules;
    assert forall r :: r in rules ==> (Admits(r, st, p, depth) <==> Matches(r, p, st.sets));
  }

  /** The policy chains that a pod's jumps lead to are in place and only accept. */
  ghost predicate PolicyChainsReady(d: Digest, infos: seq<PolicyInfo>, version: string, st: State) {
    forall i :: 0 <= i < |infos| ==>
      PolicyChainOf(d, infos[i], version) in st.chains && AcceptChain(st.chains[PolicyChainOf(d, infos[i], version)])
  }

  ghost predicate PolicyAccepts(d: Digest, info: PolicyInfo, version: string, st: State, p: Packet) {
    var c := PolicyChainOf(d, info, version);
    c in st.chains && exists r :: r in st.chains[c] && Matches(r, p, st.sets)
  }

  /** Accepting rules in any order, closed by a REJECT. */
  lemma ClosedVerdict(heads: seq<Rule>, jumps: seq<Rule>, last: Rule, st: State, p: Packet, depth: nat)
    requires Final(last)
    requires forall r :: r in heads ==> AcceptsOnly(r, st, p, depth)
    requires forall r :: r in jumps ==> AcceptsOnly(r, st, p, depth)
    ensures Run(heads + jumps + [last], st, p, depth) ==
            if (exists r :: r in heads && Admits(r, st, p, depth)) ||
              (exists r :: r in jumps && Admits(r, st, p, depth))
            then Accepted else Rejected
  {
    assert forall r :: r in heads + jumps <==> r in heads || r in jumps;
    AcceptOnlyRun(heads + jumps, [last], st, p, depth);
    assert Matches(last, p, st.sets);
  }

  lemma RunThroughAdmits(d: Digest, info: PolicyInfo, version: string, st: State, p: Packet, depth: nat)
    requires depth > 0 && PolicyChainOf(d, info, version) in st.chains
    requires AcceptChain(st.chains[PolicyChainOf(d, info, version)])
    ensures AcceptsOnly(RunThrough(d, info, version), st, p, depth)
    ensures Admits(RunThrough(d, info, version), st, p, depth) <==> PolicyAccepts(d, info, version, st, p)
  {
    AcceptChainRun(st.chains[PolicyChainOf(d, info, version)], st, p, depth - 1);
  }

  lemma HeadsAdmit(pod: PodInfo, ingress: bool, st: State, p: Packet, depth: nat)
    ensures (exists r :: r in Heads(pod, ingress) && Admits(r, st, p, depth)) <==>
            p.established || (ingress && p.fromLocal && p.dst == pod.ip)
    ensures forall r :: r in Heads(pod, ingress) ==> AcceptsOnly(r, st, p, depth)
  {
    assert Established in STATEFUL.conds;
    assert Admits(STATEFUL, st, p, depth) <==> p.established;
    var local := LocalNode(pod.ip);
    assert FromLocal in local.conds && ToAddr(pod.ip) in local.conds;
    assert Admits(local, st, p, depth) <==> p.fromLocal && p.dst == pod.ip;
    assert STATEFUL in Heads(pod, ingress) && (ingress ==> local in Heads(pod, ingress));
  }

  /**
   The verdict of a chain in normal form depends on nothing but the packet, the pod and the set
   of policies that target it: neither on the order of the listers nor on which loops visited it.
   */
  lemma NormalFormVerdict(d: Digest, infos: seq<PolicyInfo>, version: string, pod: PodInfo, ingress: bool, st: State,
                          p: Packet, depth: nat)
    requires PolicyChainsReady(d, infos, version, st) && depth > 0
    ensures Run(NormalForm(pod, Jumps(d, infos, version, pod.ip), ingress), st, p, depth) ==
            if || p.established
               || (ingress && p.fromLocal && p.dst == pod.ip)
               || exists i :: 0 <= i < |infos| && pod.ip in infos[i].targets
                              && PolicyAccepts(d, infos[i], version, st, p)
            then Accepted else Rejected
  {
    var jumps := Jumps(d, infos, version, pod.ip);
    JumpsAreJumps(d, infos, version, pod.ip);
    ReversedMembers(jumps);
    forall r | r in jumps
      ensures AcceptsOnly(r, st, p, depth)
    {
      var i :| 0 <= i < |infos| && pod.ip in infos[i].targets && r == RunThrough(d, infos[i], version);
      RunThroughAdmits(d, infos[i], version, st, p, depth);
    }
    forall i | 0 <= i < |infos|
      ensures Admits(RunThrough(d, infos[i], version), st, p, depth) <==> PolicyAccepts(d, infos[i], version, st, p)
    {
      RunThroughAdmits(d, infos[i], version, st, p, depth);
    }
    HeadsAdmit(pod, ingress, st, p, depth);
    ClosedVerdict(Heads(pod, ingress), Reversed(jumps), RejectRest(pod), st, p, depth);
    if i :| 0 <= i < |infos| && pod.ip in infos[i].targets && PolicyAccepts(d, infos[i], version, st, p) {
      assert RunThrough(d, infos[i], version) in jumps;
    }
    if r :| r in jumps && Admits(r, st, p, depth) {
      var i :| 0 <= i < |infos| && pod.ip in infos[i].targets && r == RunThrough(d, infos[i], version);
    }
  }
}
