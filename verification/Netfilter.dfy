/**
 The filter table and the ipset namespace as values: what a packet, a rule and a set are, and
 how the kernel decides a packet.

 The contracts of the foreign tools are stated here once. ACCEPT and REJECT end the evaluation,
 and a chain that runs out returns to the rule after the jump. A hash:net set is searched from
 the most specific prefix length down, and the first stored network that contains the address
 decides, negatively when it carries the nomatch flag.
 */
module Netfilter {
  /** An IPv4 address. */
  type Addr = a: nat | a < 0x1_0000_0000

  /** A network in prefix notation, section 3.1 of RFC 4632. Host bits may be set in `base`. */
  datatype Net = Net(base: Addr, len: nat)

  /** A network as a hash:net set stores it: the bits before the prefix length, and the length. */
  datatype Prefix = Prefix(bits: nat, len: nat)

  datatype IpSet =
    | HashIp(ips: set<Addr>)
    | HashNet(nets: map<Prefix, bool>)  // the stored flag is nomatch

  datatype Packet = Packet(src: Addr, dst: Addr, proto: string, dport: string,
                           bridged: bool, established: bool, fromLocal: bool, others: set<nat>)

  /** One match of a rule; `Other` stands for any match that this agent never writes. */
  datatype Cond =
    | FromAddr(addr: Addr)
    | ToAddr(addr: Addr)
    | FromSet(name: string)
    | ToSet(name: string)
    | Proto(proto: string)
    | DPort(port: string)
    | Bridged
    | Established
    | FromLocal
    | Other(id: nat)

  datatype Target = Accept | Reject | Jump(chain: string)

  datatype PeerGroup = PodPeers | AllSources | AllDestinations | SourceBlocks | DestinationBlocks

  /** The comments the agent writes, and those of others, with the chain names they contain. */
  datatype Comment =
    | AcceptFor(peers: PeerGroup, namespace: string, policy: string)
    | RunThroughPolicy(policy: string)
    | StatefulPod
    | LocalToPod
    | RejectFor(namespace: string, pod: string)
    | JumpFor(toPod: bool, namespace: string, pod: string, chain: string)
    | Foreign(text: string, chains: set<string>)

  datatype Rule = Rule(comment: Comment, conds: seq<Cond>, target: Target)

  type Chains = map<string, seq<Rule>>
  type Sets = map<string, IpSet>

  datatype State = State(chains: Chains, sets: Sets)

  datatype Verdict = Accepted | Rejected | Returned

  /**
   The chain names that a listed rule line contains. Namespaces and pod names are lower-case
   labels and chain names have one length, so a line contains a chain name exactly when the
   comment spells it out or the rule jumps there.
   */
  function Names(r: Rule): set<string> {
    (match r.comment
     case JumpFor(_, _, _, c) => {c}
     case Foreign(_, cs) => cs
     case _ => {}) +
    (if r.target.Jump? then {r.target.chain} else {})
  }

  /** The set names that a rule refers to. */
  function SetsOf(r: Rule): set<string> {
    set c | c in r.conds && (c.FromSet? || c.ToSet?) :: c.name
  }

  /** The leading bits that are left when the last `host` bits are cut off. */
  function Leading(a: nat, host: nat): nat
    decreases host
  {
    if host == 0 then a else Leading(a / 2, host - 1)
  }

  function PrefixOf(n: Net): Prefix
    requires n.len <= 32
  {
    Prefix(Leading(n.base, 32 - n.len), n.len)
  }

  predicate InNet(a: Addr, n: Net)
    requires n.len <= 32
  {
    Leading(a, 32 - n.len) == Leading(n.base, 32 - n.len)
  }

  /** Search a hash:net set from prefix length `len` down to 1. */
  predicate NetLookup(nets: map<Prefix, bool>, a: Addr, len: nat)
    requires len <= 32
  {
    if len == 0 then false
    else
      var n := PrefixOf(Net(a, len));
      if n in nets then !nets[n] else NetLookup(nets, a, len - 1)
  }

  predicate InSet(s: IpSet, a: Addr) {
    match s
    case HashIp(ips) => a in ips
    case HashNet(nets) => NetLookup(nets, a, 32)
  }

  predicate Holds(c: Cond, p: Packet, sets: Sets) {
    match c
    case FromAddr(a) => p.src == a
    case ToAddr(a) => p.dst == a
    case FromSet(n) => n in sets && InSet(sets[n], p.src)
    case ToSet(n) => n in sets && InSet(sets[n], p.dst)
    case Proto(x) => p.proto == x
    case DPort(x) => p.dport == x
    case Bridged => p.bridged
    case Established => p.established
    case FromLocal => p.fromLocal
    case Other(id) => id in p.others
  }

  predicate Matches(r: Rule, p: Packet, sets: Sets) {
    forall c :: c in r.conds ==> Holds(c, p, sets)
  }

  /** Evaluate a rule list; `depth` is the room left on the kernel's jump stack. */
  function Run(rules: seq<Rule>, st: State, p: Packet, depth: nat): Verdict
    decreases depth, |rules|
  {
    if rules == [] then Returned
    else if !Matches(rules[0], p, st.sets) then Run(rules[1..], st, p, depth)
    else
      match rules[0].target
      case Accept => Accepted
      case Reject => Rejected
      case Jump(c) =>
        var inner := if depth == 0 || c !in st.chains then Returned else Run(st.chains[c], st, p, depth - 1);
        if inner == Returned then Run(rules[1..], st, p, depth) else inner
  }

  /** A rule whose outcome can only be acceptance or a return. */
  ghost predicate AcceptsOnly(r: Rule, st: State, p: Packet, depth: nat) {
    match r.target
    case Accept => true
    case Reject => false
    case Jump(c) => depth == 0 || c !in st.chains || Run(st.chains[c], st, p, depth - 1) != Rejected
  }

  /** Does this rule, taken alone, accept the packet? */
  ghost predicate Admits(r: Rule, st: State, p: Packet, depth: nat) {
    && Matches(r, p, st.sets)
    && (match r.target
        case Accept => true
        case Reject => false
        case Jump(c) => depth > 0 && c in st.chains && Run(st.chains[c], st, p, depth - 1) == Accepted)
  }

  /** Order does not matter among rules that accept or return. */
  lemma {:induction false} AcceptOnlyRun(rules: seq<Rule>, rest: seq<Rule>, st: State, p: Packet, depth: nat)
    requires forall r :: r in rules ==> AcceptsOnly(r, st, p, depth)
    ensures Run(rules + rest, st, p, depth) ==
            if exists r :: r in rules && Admits(r, st, p, depth) then Accepted else Run(rest, st, p, depth)
    decreases |rules|
  {
    if rules == [] {
      assert rules + rest == rest;
    } else {
      assert (rules + rest)[1..] == rules[1..] + rest;
      AcceptOnlyRun(rules[1..], rest, st, p, depth);
      assert AcceptsOnly(rules[0], st, p, depth);
      if r :| r in rules && Admits(r, st, p, depth) {
        assert r == rules[0] || r in rules[1..];
      } else {
        assert !Admits(rules[0], st, p, depth);
        assert forall r :: r in rules[1..] ==> r in rules;
      }
    }
  }

  /** A rule list decides every packet that matches a rule into a list ending in REJECT. */
  lemma {:induction false} NeverReturns(rules: seq<Rule>, k: nat, st: State, p: Packet, depth: nat)
    requires k < |rules| && Matches(rules[k], p, st.sets)
    requires match rules[k].target
             case Accept => true
             case Reject => true
             case Jump(c) => depth > 0 && c in st.chains && Run(st.chains[c], st, p, depth - 1) != Returned
    ensures Run(rules, st, p, depth) != Returned
    decreases k
  {
    if k > 0 {
      NeverReturns(rules[1..], k - 1, st, p, depth);
    }
  }
}
