/**
 The names of chains and sets. A name is a prefix and a digest of plainly concatenated parts, so names
 coincide when the parts run together to one text, and otherwise only if the digest confuses two texts.
 */
module Naming {
  import opened Text

  /** The first 16 characters of the base32 SHA-256 digest. */
  type Digest = string -> string

  const POD_PREFIX := "KUBE-POD-FW-"
  const POLICY_PREFIX := "KUBE-NWPLCY-"
  const SOURCE_PREFIX := "KUBE-SRC-"
  const DESTINATION_PREFIX := "KUBE-DST-"

  function PodFirewallChain(d: Digest, ns: string, pod: string, version: string): string {
    POD_PREFIX + d(ns + pod + version)
  }

  function PolicyChain(d: Digest, ns: string, policy: string, version: string): string {
    POLICY_PREFIX + d(ns + policy + version)
  }

  function TargetSourceSet(d: Digest, ns: string, policy: string): string {
    SOURCE_PREFIX + d(ns + policy)
  }

  function TargetDestinationSet(d: Digest, ns: string, policy: string): string {
    DESTINATION_PREFIX + d(ns + policy)
  }

  function IngressPodSet(d: Digest, ns: string, policy: string, rule: nat): string {
    SOURCE_PREFIX + d(ns + policy + "ingressrule" + Itoa(rule) + "pod")
  }

  function EgressPodSet(d: Digest, ns: string, policy: string, rule: nat): string {
    DESTINATION_PREFIX + d(ns + policy + "egressrule" + Itoa(rule) + "pod")
  }

  function IngressBlockSet(d: Digest, ns: string, policy: string, rule: nat): string {
    SOURCE_PREFIX + d(ns + policy + "ingressrule" + Itoa(rule) + "ipblock")
  }

  function EgressBlockSet(d: Digest, ns: string, policy: string, rule: nat): string {
    DESTINATION_PREFIX + d(ns + policy + "egressrule" + Itoa(rule) + "ipblock")
  }

  function IngressNamedPortSet(d: Digest, ns: string, policy: string, rule: nat, port: nat): string {
    DESTINATION_PREFIX + d(ns + policy + "ingressrule" + Itoa(rule) + Itoa(port) + "namedport")
  }

  function EgressNamedPortSet(d: Digest, ns: string, policy: string, rule: nat, port: nat): string {
    DESTINATION_PREFIX + d(ns + policy + "egressrule" + Itoa(rule) + Itoa(port) + "namedport")
  }

  predicate IsPodChain(c: string) {
    HasPrefix(c, POD_PREFIX)
  }

  predicate IsPolicyChain(c: string) {
    HasPrefix(c, POLICY_PREFIX)
  }

  predicate IsPolicySet(n: string) {
    HasPrefix(n, SOURCE_PREFIX) || HasPrefix(n, DESTINATION_PREFIX)
  }

  /** The two kinds of chain never share a name. */
  lemma ChainKindsDisjoint(c: string)
    ensures !(IsPodChain(c) && IsPolicyChain(c))
    ensures IsPodChain(c) || IsPolicyChain(c) ==> c != "FORWARD" && c != "OUTPUT"
  {
    if |c| >= 12 {
      assert POD_PREFIX[5] == 'P' && POLICY_PREFIX[5] == 'N';
      assert IsPodChain(c) ==> c[5] == 'P';
      assert IsPolicyChain(c) ==> c[5] == 'N';
    }
  }

  predicate CollidesOn(d: Digest, s: string, t: string) {
    s != t && d(s) == d(t)
  }

  /**
   Distinctness cannot be derived, whatever the digest: the parts are concatenated without separators.
   Policies whose namespace and name concatenate to one string share their chain and their sets, and so
   do pods; unless the digest collides, only those policies share a chain. Named ports of two rules of
   one policy share a set when their two numerals concatenate to one.
   */
  lemma NamesCollide(d: Digest, ns: string, name: string, ns': string, name': string, version: string, rule: nat,
                     port: nat)
    ensures ns + name == ns' + name' ==>
              && PolicyChain(d, ns, name, version) == PolicyChain(d, ns', name', version)
              && PodFirewallChain(d, ns, name, version) == PodFirewallChain(d, ns', name', version)
              && TargetSourceSet(d, ns, name) == TargetSourceSet(d, ns', name')
              && TargetDestinationSet(d, ns, name) == TargetDestinationSet(d, ns', name')
              && IngressPodSet(d, ns, name, rule) == IngressPodSet(d, ns', name', rule)
              && EgressPodSet(d, ns, name, rule) == EgressPodSet(d, ns', name', rule)
              && IngressBlockSet(d, ns, name, rule) == IngressBlockSet(d, ns', name', rule)
              && EgressBlockSet(d, ns, name, rule) == EgressBlockSet(d, ns', name', rule)
              && IngressNamedPortSet(d, ns, name, rule, port) == IngressNamedPortSet(d, ns', name', rule, port)
              && EgressNamedPortSet(d, ns, name, rule, port) == EgressNamedPortSet(d, ns', name', rule, port)
    ensures PolicyChain(d, ns, name, version) == PolicyChain(d, ns', name', version) ==>
              ns + name == ns' + name' || CollidesOn(d, ns + name + version, ns' + name' + version)
  {
    var s, s', x, x' := ns + name, ns' + name', d(ns + name + version), d(ns' + name' + version);
    if PolicyChain(d, ns, name, version) == PolicyChain(d, ns', name', version) {
      assert (POLICY_PREFIX + x)[|POLICY_PREFIX|..] == x && (POLICY_PREFIX + x')[|POLICY_PREFIX|..] == x';
      if s + version == s' + version {
        assert |s| == |s'| && (s + version)[..|s|] == s && (s' + version)[..|s|] == s';
      }
    }
  }

  lemma RulesCollide(d: Digest, ns: string, name: string, rule: nat, port: nat, rule': nat, port': nat)
    requires Itoa(rule) + Itoa(port) == Itoa(rule') + Itoa(port')
    ensures IngressNamedPortSet(d, ns, name, rule, port) == IngressNamedPortSet(d, ns, name, rule', port')
    ensures EgressNamedPortSet(d, ns, name, rule, port) == EgressNamedPortSet(d, ns, name, rule', port')
  {
    hide Itoa;
    assert ns + name + "ingressrule" + Itoa(rule) + Itoa(port) == ns + name + "ingressrule" + (Itoa(rule) + Itoa(port));
    assert ns + name + "ingressrule" + Itoa(rule') + Itoa(port') ==
      ns + name + "ingressrule" + (Itoa(rule') + Itoa(port'));
    assert ns + name + "egressrule" + Itoa(rule) + Itoa(port) == ns + name + "egressrule" + (Itoa(rule) + Itoa(port));
    assert ns + name + "egressrule" + Itoa(rule') + Itoa(port') ==
      ns + name + "egressrule" + (Itoa(rule') + Itoa(port'));
  }

  /** For example policies "bc" of "a" and "c" of "ab", and ports 23 of rule 1 and 3 of rule 12. */
  lemma CollisionsExist(d: Digest, version: string)
    ensures PolicyChain(d, "a", "bc", version) == PolicyChain(d, "ab", "c", version)
    ensures IngressNamedPortSet(d, "a", "bc", 1, 23) == IngressNamedPortSet(d, "a", "bc", 12, 3)
  {
    assert "a" + "bc" == "ab" + "c";
    NamesCollide(d, "a", "bc", "ab", "c", version, 0, 0);
    assert Itoa(1) + Itoa(23) == "123" == Itoa(12) + Itoa(3);
    RulesCollide(d, "a", "bc", 1, 23, 12, 3);
  }
}
