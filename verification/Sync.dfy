/**
 One pass of the network policy controller, command by command. Every method promises, for every
 state it puts the kernel in, that references resolve and that guarded pods stay guarded.
 */
module Sync {
  import opened Netfilter
  import opened IpBlocks
  import opened Kernel
  import opened Ipset
  import opened Text
  import opened Naming
  import opened Policies
  import opened Compile
  import opened CompileSets
  import opened Firewall
  import opened PodChains

  /** The two maps agree outside the given keys. */
  ghost predicate SameExcept(a: Chains, b: Chains, keys: set<string>) {
    forall k :: k !in keys ==> (k in a <==> k in b) && (k in a && k in b ==> a[k] == b[k])
  }

  /** No chain was removed and no rule was lost. */
  ghost predicate Grown(before: Chains, now: Chains) {
    forall k :: k in before ==> k in now && forall r :: r in before[k] ==> r in now[k]
  }

  lemma GrownTrans(a: Chains, b: Chains, c: Chains)
    requires Grown(a, b) && Grown(b, c)
    ensures Grown(a, c)
  {
  }

  ghost function PolicyChains(d: Digest, infos: seq<PolicyInfo>, version: string): set<string> {
    set i | 0 <= i < |infos| :: PolicyChainOf(d, infos[i], version)
  }

  /** Every state entered since `before` lies in `inv`. */
  ghost predicate Within(before: seq<State>, now: seq<State>, inv: iset<State>) {
    before <= now && LogIn(now, |before|, inv)
  }

  lemma WithinTrans(a: seq<State>, b: seq<State>, c: seq<State>, inv: iset<State>)
    requires Within(a, b, inv) && Within(b, c, inv)
    ensures Within(a, c, inv)
  {
  }

  lemma WithinSame(log: seq<State>, inv: iset<State>)
    ensures Within(log, log, inv)
  {
  }

  function RulesIn(chains: Chains, c: string): seq<Rule> {
    if c in chains then chains[c] else []
  }

  function Filled(rules: seq<Rule>, pod: PodInfo, jumps: seq<Rule>, toPod: bool): seq<Rule> {
    var all := FrontAll(rules, jumps);
    if toPod then FrontOf(all, LocalNode(pod.ip)) else all
  }

  function Pass(rules: seq<Rule>, pod: PodInfo, jumps: seq<Rule>, toPod: bool): seq<Rule> {
    if toPod then IngressPass(rules, pod, jumps) else EgressPass(rules, pod, jumps)
  }

  /** The rules that were added to a chain name only these chains. */
  ghost predicate AddedNaming(before: seq<Rule>, now: seq<Rule>, names: set<string>) {
    forall r :: r in now ==> r in before || Names(r) <= names
  }

  lemma ClosingRuleLast(inv: iset<State>, st: State, c: string, r: Rule)
    requires Stable(inv) && st in inv && IsPodChain(c) && c in st.chains && r in st.chains[c] && Final(r)
    ensures st.chains[c] != [] && Final(st.chains[c][|st.chains[c]| - 1])
  {
    assert Sound(st);
    assert ClosesLast(st.chains[c]);
  }

  lemma BaseChains(inv: iset<State>, st: State)
    requires Stable(inv) && st in inv
    ensures FORWARD in st.chains && OUTPUT in st.chains
  {
  }

  /** As `GrownIn`, but `c` may be new. */
  ghost predicate GrownBy(before: Chains, now: Chains, c: string, names: set<string>) {
    && SameExcept(now, before, {c}) && Grown(before, now)
    && AddedNaming(RulesIn(before, c), RulesIn(now, c), names)
  }

  /** Only `c` differs; it gained only rules that name these chains. */
  ghost predicate GrownIn(before: Chains, now: Chains, c: string, names: set<string>) {
    GrownBy(before, now, c, names) && (c in now <==> c in before)
  }

  lemma GrownInSame(chains: Chains, c: string, names: set<string>)
    ensures GrownIn(chains, chains, c, names)
  {
  }

  lemma GrownInKeys(before: Chains, now: Chains, c: string, names: set<string>)
    requires GrownIn(before, now, c, names)
    ensures before.Keys <= now.Keys
  {
    hide Names;
  }

  lemma GrownInTrans(x: Chains, y: Chains, z: Chains, c: string, names: set<string>, more: set<string>)
    requires GrownIn(x, y, c, names) && GrownIn(y, z, c, more) && more <= names
    ensures GrownIn(x, z, c, names)
  {
  }

  /** The base chains gained only jumps to `c`. */
  ghost predicate BaseLinked(before: Chains, now: Chains, c: string) {
    forall k :: k == FORWARD || k == OUTPUT ==> k in before && k in now && AddedNaming(before[k], now[k], {c})
  }

  /** Only the base chains differ. */
  ghost predicate Linked(before: Chains, now: Chains, c: string) {
    SameExcept(now, before, {FORWARD, OUTPUT}) && BaseLinked(before, now, c) && Grown(before, now)
  }

  /** The jumps that send a pod's traffic in one direction through its chain. */
  predicate Links(chains: Chains, pod: PodInfo, c: string, toPod: bool) {
    && FORWARD in chains && OUTPUT in chains
    && Routed(toPod, pod, c) in chains[FORWARD] && Switched(toPod, pod, c) in chains[FORWARD]
    && (toPod ==> Routed(toPod, pod, c) in chains[OUTPUT])
  }

  /** Rules of the given kind were put in front, and nothing else changed. */
  ghost predicate Fronted(before: seq<Rule>, now: seq<Rule>, front: iset<Rule>) {
    && |before| <= |now| && now[|now| - |before|..] == before
    && forall i :: 0 <= i < |now| - |before| ==> now[i] in front
  }

  lemma FrontedTrans(a: seq<Rule>, b: seq<Rule>, c: seq<Rule>, x: iset<Rule>, y: iset<Rule>, front: iset<Rule>)
    requires Fronted(a, b, x) && Fronted(b, c, y) && x <= front && y <= front
    ensures Fronted(a, c, front)
  {
    var k := |c| - |b|;
    assert forall i :: k <= i < |c| ==> c[i] == c[k..][i - k];
    assert c[|c| - |a|..] == c[k..][|b| - |a|..];
  }

  /** The jumps that a pod's traffic in one direction needs in a base chain. */
  ghost function BaseJumps(base: string, toPod: bool, pod: PodInfo, c: string): iset<Rule> {
    if base == FORWARD || toPod then iset{Routed(toPod, pod, c), Switched(toPod, pod, c)} else iset{}
  }

  ghost predicate BasesFronted(before: Chains, now: Chains, toPod: bool, pod: PodInfo, c: string) {
    && FORWARD in before && FORWARD in now && Fronted(before[FORWARD], now[FORWARD], BaseJumps(FORWARD, toPod, pod, c))
    && OUTPUT in before && OUTPUT in now && Fronted(before[OUTPUT], now[OUTPUT], BaseJumps(OUTPUT, toPod, pod, c))
  }

  lemma BasesFrontedSame(chains: Chains, toPod: bool, pod: PodInfo, c: string)
    requires FORWARD in chains && OUTPUT in chains
    ensures BasesFronted(chains, chains, toPod, pod, c)
  {
  }

  lemma BasesFrontedTrans(x: Chains, y: Chains, z: Chains, toPod: bool, pod: PodInfo, c: string)
    requires BasesFronted(x, y, toPod, pod, c) && BasesFronted(y, z, toPod, pod, c)
    ensures BasesFronted(x, z, toPod, pod, c)
  {
    hide Fronted, BaseJumps;
    var f, o := BaseJumps(FORWARD, toPod, pod, c), BaseJumps(OUTPUT, toPod, pod, c);
    FrontedTrans(x[FORWARD], y[FORWARD], z[FORWARD], f, f, f);
    FrontedTrans(x[OUTPUT], y[OUTPUT], z[OUTPUT], o, o, o);
  }

  lemma BasesFrontedOne(chains: Chains, base: string, r: Rule, toPod: bool, pod: PodInfo, c: string)
    requires FORWARD in chains && OUTPUT in chains && base in {FORWARD, OUTPUT} && r in BaseJumps(base, toPod, pod, c)
    ensures BasesFronted(chains, chains[base := FrontOf(chains[base], r)], toPod, pod, c)
  {
    hide BaseJumps;
    assert FORWARD != OUTPUT;
  }

  /** One round of a pod loop changed only the pod's chain and the base chains, and added only what leads onwards. */
  ghost predicate PodGrew(before: Chains, now: Chains, c: string, policies: set<string>) {
    && SameExcept(now, before, {c, FORWARD, OUTPUT})
    && Grown(before, now)
    && BaseLinked(before, now, c)
    && AddedNaming(RulesIn(before, c), RulesIn(now, c), policies)
  }

  /** What one round of a pod loop has done. */
  ghost predicate PodDone(before: State, now: State, pod: PodInfo, c: string, toPod: bool, policies: set<string>,
                          jumps: seq<Rule>, ok: bool, complete: bool) {
    && PodGrew(before.chains, now.chains, c, policies)
    && BasesFronted(before.chains, now.chains, toPod, pod, c)
    && (ok ==> c in now.chains && Links(now.chains, pod, c, toPod) && Guard(now, Way(toPod, pod.ip), c))
    && (ok && complete ==> now.chains[c] == Pass(RulesIn(before.chains, c), pod, jumps, toPod))
  }

  lemma JumpLayered(toPod: bool, pod: PodInfo, c: string, conds: seq<Cond>)
    requires IsPodChain(c) && forall x :: x in conds ==> !x.FromSet? && !x.ToSet?
    ensures var r := JumpToPod(toPod, pod, c, conds);
            && Layered(FORWARD, r) && Layered(OUTPUT, r) && !Final(r) && Names(r) == {c}
            && r.target == Jump(c) && SetsOf(r) == {}
  {
    ChainKindsDisjoint(c);
    ChainKindsDisjoint(FORWARD);
    ChainKindsDisjoint(OUTPUT);
  }

  lemma LinkedTrans(x: Chains, y: Chains, z: Chains, c: string)
    requires Linked(x, y, c) && Linked(y, z, c)
    ensures Linked(x, z, c)
  {
    GrownTrans(x, y, z);
    hide Names, Grown;
  }

  lemma LinkedKeeps(x: Chains, y: Chains, c: string, base: string, r: Rule)
    requires (x == y || Linked(x, y, c)) && base in x && r in x[base]
    ensures base in y && r in y[base]
  {
    hide Names;
  }

  lemma LinkedKeys(x: Chains, y: Chains, c: string)
    requires Linked(x, y, c)
    ensures x.Keys <= y.Keys
  {
    hide Names;
  }

  lemma LinkedSame(chains: Chains, c: string)
    requires FORWARD in chains && OUTPUT in chains
    ensures Linked(chains, chains, c)
  {
  }

  lemma GrownBySame(chains: Chains, c: string)
    ensures GrownBy(chains, chains, c, {})
  {
  }

  lemma ClosingLayered(c: string, pod: PodInfo)
    requires IsPodChain(c)
    ensures Layered(c, RejectRest(pod)) && Final(RejectRest(pod)) && Layered(c, STATEFUL) && !Final(STATEFUL)
    ensures Names(RejectRest(pod)) == {} && Names(STATEFUL) == {}
  {
    ChainKindsDisjoint(c);
  }

  lemma GrownBack(chains: Chains, c: string, r: Rule)
    requires c in chains && Names(r) == {}
    ensures GrownBy(chains, chains[c := BackOf(chains[c], r)], c, {})
  {
    hide Names;
  }

  lemma GrownFront(chains: Chains, c: string, r: Rule)
    requires c in chains && Names(r) == {}
    ensures GrownBy(chains, chains[c := FrontOf(chains[c], r)], c, {})
  {
    hide Names;
  }

  lemma AddedMore(a: seq<Rule>, b: seq<Rule>, c: seq<Rule>, names: set<string>)
    requires AddedNaming(a, b, names) && AddedNaming(b, c, {})
    ensures AddedNaming(a, c, names)
  {
  }

  lemma GrownByTrans(x: Chains, y: Chains, z: Chains, c: string, names: set<string>)
    requires GrownBy(x, y, c, names) && GrownBy(y, z, c, {})
    ensures GrownBy(x, z, c, names)
  {
    hide Names;
    GrownTrans(x, y, z);
    AddedMore(RulesIn(x, c), RulesIn(y, c), RulesIn(z, c), names);
  }

  lemma LocalLayered(c: string, pod: PodInfo)
    requires IsPodChain(c)
    ensures Layered(c, LocalNode(pod.ip)) && !Final(LocalNode(pod.ip)) && Names(LocalNode(pod.ip)) == {}
    ensures SetsOf(LocalNode(pod.ip)) == {}
  {
    ChainKindsDisjoint(c);
  }

  lemma LinksKept(m: Chains, b: Chains, pod: PodInfo, c: string, toPod: bool)
    requires Links(m, pod, c, toPod) && SameExcept(b, m, {c}) && c != FORWARD && c != OUTPUT
    ensures Links(b, pod, c, toPod)
  {
    hide JumpToPod;
  }

  lemma LinkedChain(m1: Chains, m2: Chains, c: string)
    requires Linked(m1, m2, c) && c != FORWARD && c != OUTPUT
    ensures RulesIn(m1, c) == RulesIn(m2, c) && (c in m1 <==> c in m2)
  {
  }

  lemma GuardOf(m: State, b: State, pod: PodInfo, c: string, toPod: bool)
    requires IsPodChain(c) && c != FORWARD && SameExcept(b.chains, m.chains, {c})
    requires Links(m.chains, pod, c, toPod)
    requires c in b.chains && b.chains[c] != [] && Final(b.chains[c][|b.chains[c]| - 1])
    ensures Guard(b, Way(toPod, pod.ip), c)
  {
    var r := Routed(toPod, pod, c);
    assert r in b.chains[FORWARD] && r.conds == [Way(toPod, pod.ip)] && r.target == Jump(c);
  }

  lemma PodGrewOf(a: Chains, m1: Chains, m2: Chains, b: Chains, c: string, policies: set<string>)
    requires c != FORWARD && c != OUTPUT
    requires GrownBy(a, m1, c, policies) && Linked(m1, m2, c) && GrownBy(m2, b, c, {})
    ensures PodGrew(a, b, c, policies)
  {
    hide AddedNaming, Grown;
    LinkedChain(m1, m2, c);
    GrownTrans(a, m1, m2);
    GrownTrans(a, m2, b);
    AddedMore(RulesIn(a, c), RulesIn(m1, c), RulesIn(b, c), policies);
  }

  lemma BasesFrontedOf(a: Chains, m1: Chains, m2: Chains, b: Chains, pod: PodInfo, c: string, toPod: bool,
                       policies: set<string>)
    requires c != FORWARD && c != OUTPUT && BasesFronted(m1, m2, toPod, pod, c)
    requires GrownBy(a, m1, c, policies) && GrownBy(m2, b, c, {})
    ensures BasesFronted(a, b, toPod, pod, c)
  {
    hide AddedNaming, Grown, Fronted, BaseJumps;
  }

  /** Filling, linking and closing a pod's chain make up one round. */
  lemma PodDoneOf(a: State, m1: State, m2: State, b: State, pod: PodInfo, c: string, toPod: bool, policies: set<string>,
                  jumps: seq<Rule>, ok: bool, complete: bool)
    requires IsPodChain(c)
    requires GrownBy(a.chains, m1.chains, c, policies) && Linked(m1.chains, m2.chains, c)
    requires GrownBy(m2.chains, b.chains, c, {})
    requires BasesFronted(m1.chains, m2.chains, toPod, pod, c)
    requires ok ==> Links(m2.chains, pod, c, toPod)
    requires ok && complete ==> RulesIn(m1.chains, c) == Filled(RulesIn(a.chains, c), pod, jumps, toPod)
    requires ok ==> c in b.chains && b.chains[c] == FrontOf(BackOf(RulesIn(m2.chains, c), RejectRest(pod)), STATEFUL)
    requires ok ==> b.chains[c] != [] && Final(b.chains[c][|b.chains[c]| - 1])
    ensures PodDone(a, b, pod, c, toPod, policies, jumps, ok, complete)
  {
    hide AddedNaming, FrontOf, BackOf, Final, FrontAll, IsPodChain, Grown, Guard, Linked, PodGrew, BasesFronted, Links;
    ChainKindsDisjoint(c);
    LinkedChain(m1.chains, m2.chains, c);
    PodGrewOf(a.chains, m1.chains, m2.chains, b.chains, c, policies);
    BasesFrontedOf(a.chains, m1.chains, m2.chains, b.chains, pod, c, toPod, policies);
    if ok {
      LinksKept(m2.chains, b.chains, pod, c, toPod);
      GuardOf(m2, b, pod, c, toPod);
    }
  }

  /** No set is left over from an interrupted refresh. */
  ghost predicate NoLeftovers(sets: Sets) {
    forall n :: n in sets && IsPolicySet(n) ==> |n| == SET_NAME_LENGTH
  }

  /** A set that is no temporary one: it has a proper name, or is not the agent's. */
  predicate IsLasting(n: string) {
    IsPolicySet(n) ==> |n| == SET_NAME_LENGTH
  }

  /** The lasting sets outside `names` are as they were. */
  ghost predicate OtherSetsKept(before: Sets, now: Sets, names: set<string>) {
    forall n :: IsLasting(n) && n !in names ==>
      (n in before <==> n in now) && (n in before && n in now ==> now[n] == before[n])
  }

  ghost predicate HasKind(sets: Sets, name: string, kind: Kind) {
    name in sets && KindOf(sets[name]) == kind
  }

  /** Without leftovers the name of the temporary set is free, and no rule refers to it. */
  lemma TempIsFree(inv: iset<State>, st: State, name: string, suffix: string)
    requires Stable(inv) && st in inv && IsSetName(name) && suffix != ""
    ensures NoLeftovers(st.sets) ==> name + suffix !in st.sets && !SetReferenced(st.chains, name + suffix)
  {
    var temp := name + suffix;
    assert IsPolicySet(temp) by {
      assert temp[..|name|] == name;
    }
    assert Sound(st);
    if temp !in st.sets {
      forall k, r | k in st.chains && r in st.chains[k]
        ensures temp !in SetsOf(r)
      {
        assert Resolvable(st, r);
      }
    }
  }

  lemma TempPasses(name: string, suffix: string)
    requires IsSetName(name) && suffix != ""
    ensures !IsLasting(name + suffix)
  {
    assert (name + suffix)[..|name|] == name;
  }

  lemma MidRefreshKeeps(before: State, now: State, name: string, temp: string, filled: IpSet)
    requires MidRefresh(before, now, name, temp, filled) && !IsLasting(temp)
    ensures OtherSetsKept(before.sets, now.sets, {name})
  {
    forall n | IsLasting(n) && n != name
      ensures n in before.sets <==> n in now.sets
      ensures n in before.sets && n in now.sets ==> now.sets[n] == before.sets[n]
    {
      var rest := {name, temp};
      assert n in before.sets <==> n in before.sets - rest;
      assert n in now.sets <==> n in now.sets - rest;
      assert n in before.sets ==> (before.sets - rest)[n] == before.sets[n];
      assert n in now.sets ==> (now.sets - rest)[n] == now.sets[n];
    }
  }

  lemma CacheKept(before: map<string, Kind>, now: map<string, Kind>, temp: string)
    requires now - {temp} == before - {temp} && |temp| > SET_NAME_LENGTH
    ensures forall n :: IsSetName(n) && n in now ==> n in before && now[n] == before[n]
  {
    forall n | IsSetName(n) && n in now
      ensures n in before && now[n] == before[n]
    {
      assert n in now - {temp};
      assert (now - {temp})[n] == now[n];
    }
  }

  ghost predicate CacheExtends(before: map<string, Kind>, now: map<string, Kind>, name: string, kind: Kind) {
    forall n :: IsSetName(n) && n in now ==> if n in before then now[n] == before[n] else n == name && now[n] == kind
  }

  ghost predicate Holding(sets: Sets, name: string, kind: Kind, entries: seq<SetEntry>) {
    AllFit(kind, entries) && name in sets && sets[name] == Contents(kind, entries)
  }

  /** The kernel together with the handler's cache. */
  datatype Memory = Memory(st: State, cache: map<string, Kind>)

  /** One command of a policy has been carried out. */
  ghost predicate OpDone(a: Memory, b: Memory, c: string, op: Op, ok: bool, clean: bool) {
    match op
    case AppendOp(r) =>
      && b.st.sets == a.st.sets && b.cache == a.cache && clean
      && (if ok then c in a.st.chains && b.st.chains == a.st.chains[c := BackOf(a.st.chains[c], r)]
        else b.st.chains == a.st.chains)
    case CreateOp(n, kind) =>
      && b.st.chains == a.st.chains && OtherSetsKept(a.st.sets, b.st.sets, {n}) &&
        CacheExtends(a.cache, b.cache, n, kind) && clean
      && (n in a.st.sets ==> n in b.st.sets && b.st.sets[n] == a.st.sets[n])
      && (ok ==> n in b.st.sets && (n !in a.st.sets ==> b.st.sets[n] == EmptySet(kind)))
      && (NoLeftovers(a.st.sets) ==> NoLeftovers(b.st.sets))
    case UseOp(n, kind, entries) =>
      && (ok ==> n in b.st.sets)
      && b.st.chains == a.st.chains && OtherSetsKept(a.st.sets, b.st.sets, {n}) &&
        CacheExtends(a.cache, b.cache, n, kind)
      && (clean && NoLeftovers(a.st.sets) && (n in a.cache ==> a.cache[n] == kind) ==>
            NoLeftovers(b.st.sets) && Holding(b.st.sets, n, kind, entries))
  }

  /** A set can be created and refreshed: no leftovers, and what exists or is cached under its name has its kind. */
  ghost predicate CanUse(a: Memory, n: string, kind: Kind, entries: seq<SetEntry>) {
    && NoLeftovers(a.st.sets) && AllFit(kind, entries)
    && (n in a.cache ==> a.cache[n] == kind) && (n in a.st.sets ==> KindOf(a.st.sets[n]) == kind)
  }

  /** A command can be carried out. */
  ghost predicate CanApply(a: Memory, c: string, op: Op) {
    match op
    case AppendOp(r) => c in a.st.chains && Resolvable(a.st, r)
    case CreateOp(_, _) => true
    case UseOp(n, kind, entries) => CanUse(a, n, kind, entries)
  }

  /** The sets that exist under names that the commands use have the kinds that the commands use. */
  ghost predicate KindsAgree(sets: Sets, ops: seq<Op>) {
    forall op :: op in ops && !op.AppendOp? && op.name in sets ==> KindOf(sets[op.name]) == op.kind
  }

  /** The cached kinds are those that the commands use. */
  ghost predicate CacheAgrees(cache: map<string, Kind>, ops: seq<Op>) {
    forall op :: op in ops && !op.AppendOp? && op.name in cache ==> cache[op.name] == op.kind
  }

  /** A memory on which the commands `ops` find nothing in their way. */
  ghost predicate Steady(m: Memory, ops: seq<Op>) {
    NoLeftovers(m.st.sets) && CacheAgrees(m.cache, ops) && KindsAgree(m.st.sets, ops)
  }

  /** Commands that use one set name use it for one thing: the hypothesis of distinct set names. */
  ghost predicate Coherent(ops: seq<Op>) {
    forall a, b :: a in ops && b in ops && !a.AppendOp? && !b.AppendOp? && a.name == b.name ==>
      a.kind == b.kind && (a.UseOp? && b.UseOp? ==> a.entries == b.entries)
  }

  /** The commands of one policy, among all commands of a sync, can be carried out one after the other. */
  ghost predicate CanApplyAll(a: Memory, c: string, ops: seq<Op>, all: seq<Op>) {
    && c in a.st.chains && Steady(a, all) && Coherent(all) && Fit(ops) && Tidy(ops, iset{})
    && (forall op :: op in ops ==> op in all)
    && forall x :: x in all && !x.AppendOp? ==> IsSetName(x.name)
  }

  lemma StartsSteady(a: Memory, c: string, ops: seq<Op>, all: seq<Op>)
    ensures CanApplyAll(a, c, ops, all) ==> Steady(a, all)
  {
  }

  lemma TidyPrefix(ops: seq<Op>, i: nat)
    requires Tidy(ops, iset{}) && i < |ops|
    ensures forall op :: op in ops[..i] ==> TidyOp(op, iset{} + Declared(ops))
  {
    forall op | op in ops[..i]
      ensures TidyOp(op, iset{} + Declared(ops))
    {
      var k :| 0 <= k < i && ops[k] == op;
      TidyMember(ops, iset{}, k);
    }
  }

  ghost predicate CacheFrom(before: map<string, Kind>, now: map<string, Kind>, ops: seq<Op>) {
    forall n :: IsSetName(n) && n in now ==>
      || (n in before && now[n] == before[n])
      || exists op :: op in ops && !op.AppendOp? && op.name == n && op.kind == now[n]
  }

  predicate UsedIn(ops: seq<Op>, n: string) {
    exists op :: op in ops && op.UseOp? && op.name == n
  }

  /** A set keeps its contents unless the commands refresh it. */
  ghost predicate UnusedKept(before: Sets, now: Sets, ops: seq<Op>) {
    forall n :: IsLasting(n) && n in before && !UsedIn(ops, n) ==> n in now && now[n] == before[n]
  }

  /** Exactly the appended rules have been added, all of them to `c`. */
  ghost predicate Appended(before: Chains, now: Chains, c: string, ops: seq<Op>) {
    && SameExcept(now, before, {c}) && (c in now <==> c in before)
    && forall r :: r in RulesIn(now, c) <==> r in RulesIn(before, c) || AppendOp(r) in ops
  }

  /** A sequence of commands has been carried out. */
  ghost predicate OpsDone(a: Memory, b: Memory, c: string, ops: seq<Op>, active: set<string>, clean: bool) {
    && Appended(a.st.chains, b.st.chains, c, ops)
    && (forall n :: n in active <==> n in Declared(ops))
    && (forall n :: n in active ==> n in b.st.sets)
    && UnusedKept(a.st.sets, b.st.sets, ops)
    && CacheFrom(a.cache, b.cache, ops)
    && (clean && NoLeftovers(a.st.sets) && Coherent(ops) && CacheAgrees(a.cache, ops) ==>
          NoLeftovers(b.st.sets) && Realised(ops, b.st.sets))
  }

  /** A rule of a policy can be appended when the commands before it have been carried out. */
  lemma NextResolves(a: Memory, m: Memory, c: string, ops: seq<Op>, i: nat, active: set<string>, clean: bool)
    requires Tidy(ops, iset{}) && i < |ops| && OpsDone(a, m, c, ops[..i], active, clean)
    ensures ops[i].AppendOp? ==> (c in a.st.chains ==> c in m.st.chains) && Resolvable(m.st, ops[i].rule)
  {
    TidyMember(ops, iset{}, i);
    hide Tidy, NoLeftovers, Coherent, CacheFrom, UnusedKept, Realised;
    if ops[i].AppendOp? {
      forall n | n in SetsOf(ops[i].rule)
        ensures n in m.st.sets
      {
        assert n in Declared(ops[..i]) && n in active;
      }
    }
  }

  lemma NextApplies(a: Memory, m: Memory, c: string, ops: seq<Op>, i: nat, active: set<string>, clean: bool,
                    all: seq<Op>)
    requires CanApplyAll(a, c, ops, all) && Steady(m, all) && i < |ops| && OpsDone(a, m, c, ops[..i], active, clean)
    ensures CanApply(m, c, ops[i])
  {
    hide Tidy, NoLeftovers, Coherent, OpsDone, Resolvable;
    NextResolves(a, m, c, ops, i, active, clean);
    assert ops[i] in ops && ops[i] in all;
  }

  lemma SteadyStep(m: Memory, b: Memory, c: string, op: Op, all: seq<Op>, names: iset<string>)
    requires Steady(m, all) && OpDone(m, b, c, op, true, true) && TidyOp(op, names)
    requires op in all && Coherent(all) && forall x :: x in all && !x.AppendOp? ==> IsSetName(x.name)
    ensures Steady(b, all)
  {
    if op.UseOp? && op.name in m.cache {
      assert m.cache[op.name] == op.kind;
    }
    forall x | x in all && !x.AppendOp? && x.name in b.st.sets
      ensures KindOf(b.st.sets[x.name]) == x.kind
    {
      assert IsSetName(x.name);
    }
    hide NoLeftovers;
  }

  lemma StaysSteady(a: Memory, m: Memory, b: Memory, c: string, ops: seq<Op>, i: nat, all: seq<Op>)
    requires CanApplyAll(a, c, ops, all) && Steady(m, all) && i < |ops| && OpDone(m, b, c, ops[i], true, true)
    ensures Steady(b, all)
  {
    TidyMember(ops, iset{}, i);
    hide Tidy, Steady, OpDone;
    assert ops[i] in ops;
    SteadyStep(m, b, c, ops[i], all, iset{} + Declared(ops));
  }

  lemma ChainStays(a: Memory, b: Memory, c: string, ops: seq<Op>, active: set<string>, clean: bool)
    requires OpsDone(a, b, c, ops, active, clean)
    ensures c in a.st.chains <==> c in b.st.chains
  {
  }

  lemma OpsStart(a: Memory, c: string)
    ensures OpsDone(a, a, c, [], {}, true)
  {
  }

  lemma AppendedStep(a: Memory, m: Memory, b: Memory, c: string, ops: seq<Op>, op: Op, clean: bool)
    requires Appended(a.st.chains, m.st.chains, c, ops) && OpDone(m, b, c, op, true, clean)
    ensures Appended(a.st.chains, b.st.chains, c, ops + [op])
  {
    assert forall x :: x in ops + [op] <==> x in ops || x == op;
  }

  lemma UnusedStep(a: Memory, m: Memory, b: Memory, c: string, ops: seq<Op>, op: Op, clean: bool)
    requires UnusedKept(a.st.sets, m.st.sets, ops) && CacheFrom(a.cache, m.cache, ops)
    requires OpDone(m, b, c, op, true, clean)
    ensures UnusedKept(a.st.sets, b.st.sets, ops + [op]) && CacheFrom(a.cache, b.cache, ops + [op])
  {
    var all := ops + [op];
    assert op in all && forall x :: x in ops ==> x in all;
    forall n | IsSetName(n) && n in a.st.sets && !UsedIn(all, n)
      ensures n in b.st.sets && b.st.sets[n] == a.st.sets[n]
    {
      assert !UsedIn(ops, n);
    }
  }

  lemma ActiveStep(m: Memory, b: Memory, c: string, ops: seq<Op>, op: Op, active: set<string>, clean: bool,
                   names: iset<string>)
    requires OpDone(m, b, c, op, true, clean) && TidyOp(op, names) && forall x :: x in ops ==> TidyOp(x, names)
    requires forall n :: n in active <==> n in Declared(ops)
    requires forall n :: n in active ==> n in m.st.sets
    ensures forall n :: n in (if op.AppendOp? then active else active + {op.name}) ==> n in b.st.sets
  {
    forall n | n in active
      ensures IsSetName(n)
    {
      var x :| x in ops && !x.AppendOp? && x.name == n;
      assert TidyOp(x, names);
    }
    hide IsSetName, NoLeftovers;
  }

  lemma RealisedStep(a: Memory, m: Memory, b: Memory, c: string, ops: seq<Op>, op: Op, names: iset<string>)
    requires OpDone(m, b, c, op, true, true) && TidyOp(op, names) && forall x :: x in ops ==> TidyOp(x, names)
    requires NoLeftovers(m.st.sets) && Realised(ops, m.st.sets) && CacheFrom(a.cache, m.cache, ops)
    requires Coherent(ops + [op]) && CacheAgrees(a.cache, ops + [op])
    ensures NoLeftovers(b.st.sets) && Realised(ops + [op], b.st.sets)
  {
    var all := ops + [op];
    assert op in all && forall x :: x in ops ==> x in all;
    if op.UseOp? && op.name in m.cache {
      assert m.cache[op.name] == op.kind;
    }
    forall x | x in all && x.UseOp?
      ensures Holding(b.st.sets, x.name, x.kind, x.entries)
    {
      assert TidyOp(x, names);
      if x in ops {
        assert Holding(m.st.sets, x.name, x.kind, x.entries);
      }
    }
  }

  lemma OpsStep(a: Memory, m: Memory, b: Memory, c: string, ops: seq<Op>, op: Op, active: set<string>, clean: bool,
                clean': bool, names: iset<string>)
    requires OpsDone(a, m, c, ops, active, clean) && OpDone(m, b, c, op, true, clean') && TidyOp(op, names)
    requires forall x :: x in ops ==> TidyOp(x, names)
    ensures OpsDone(a, b, c, ops + [op], if op.AppendOp? then active else active + {op.name}, clean && clean')
  {
    hide OpDone, Appended, UnusedKept, CacheFrom, NoLeftovers;
    var all := ops + [op];
    AppendedStep(a, m, b, c, ops, op, clean');
    UnusedStep(a, m, b, c, ops, op, clean');
    ActiveStep(m, b, c, ops, op, active, clean', names);
    assert forall x :: x in all <==> x in ops || x == op;
    if clean && clean' && NoLeftovers(a.st.sets) && Coherent(all) && CacheAgrees(a.cache, all) {
      assert Coherent(ops) && CacheAgrees(a.cache, ops);
      RealisedStep(a, m, b, c, ops, op, names);
    }
  }

  class Controller {
    const kernel: Kernel
    const ipsets: Handler
    const digest: Digest

    constructor (k: Kernel, h: Handler, d: Digest)
      requires h.kernel == k && ValidDigest(d)
      ensures kernel == k && ipsets == h && digest == d && Wired()
    {
      kernel, ipsets, digest := k, h, d;
    }

    ghost predicate Wired() {
      ipsets.kernel == kernel && ValidDigest(digest)
    }

    /** Insert a rule at the front of a chain unless the chain has it. */
    method EnsureFront(c: string, r: Rule, ghost inv: iset<State>) returns (s: Status)
      requires Stable(inv) && kernel.Now() in inv && Layered(c, r) && !Final(r)
      modifies kernel
      ensures kernel.Now() in inv && Within(old(kernel.log), kernel.log, inv) && old(kernel.faults) <= kernel.faults
      ensures kernel.sets == old(kernel.sets)
      ensures s == Ok ==> c in old(kernel.chains) && Resolvable(kernel.Now(), r)
                          && kernel.chains == old(kernel.chains)[c := FrontOf(old(kernel.chains)[c], r)]
      ensures s != Ok ==> kernel.chains == old(kernel.chains)
      ensures kernel.faults == old(kernel.faults) && c in old(kernel.chains) && Resolvable(old(kernel.Now()), r) ==>
                s == Ok
    {
      var found;
      s, found := kernel.Exists(c, r);
      if s != Ok {
        s := Failed;
      } else if !found {
        s := kernel.Insert(c, r);
        if s == Ok {
          assert ClosedFront(inv, c, r);
        }
      }
    }

    /** Append a rule to a chain unless the chain has it. */
    method EnsureBack(c: string, r: Rule, ghost inv: iset<State>) returns (s: Status)
      requires Stable(inv) && kernel.Now() in inv && Layered(c, r) && (IsPodChain(c) ==> Final(r))
      modifies kernel
      ensures kernel.Now() in inv && Within(old(kernel.log), kernel.log, inv) && old(kernel.faults) <= kernel.faults
      ensures kernel.sets == old(kernel.sets)
      ensures s == Ok ==> c in old(kernel.chains)
                          && kernel.chains == old(kernel.chains)[c := BackOf(old(kernel.chains)[c], r)]
      ensures s != Ok ==> kernel.chains == old(kernel.chains)
      ensures kernel.faults == old(kernel.faults) && c in old(kernel.chains) && Resolvable(old(kernel.Now()), r) ==>
                s == Ok
    {
      var found;
      s, found := kernel.Exists(c, r);
      if s != Ok {
        s := Failed;
      } else if !found {
        s := kernel.Append(c, r);
        if s == Ok {
          assert ClosedBack(inv, c, r);
        }
      }
    }

    /** Create a chain; exit status 1 is taken to mean that it exists. */
    method EnsureChain(c: string, ghost inv: iset<State>) returns (ok: bool, created: bool)
      requires Stable(inv) && kernel.Now() in inv
      modifies kernel
      ensures kernel.Now() in inv && Within(old(kernel.log), kernel.log, inv) && old(kernel.faults) <= kernel.faults
      ensures kernel.sets == old(kernel.sets)
      ensures created ==> ok && c !in old(kernel.chains) && kernel.chains == old(kernel.chains)[c := []]
      ensures !created ==> kernel.chains == old(kernel.chains)
      ensures kernel.faults == old(kernel.faults) ==>
                ok && c in kernel.chains && (created <==> c !in old(kernel.chains))
    {
      var s := kernel.NewChain(c);
      if s == Ok {
        assert ClosedNew(inv, c);
      }
      ok, created := s == Ok || s == Exit1, s == Ok;
    }

    /** Jump from a pod's chain to one policy. A failed insert with exit status 1 is passed over. */
    method AddJump(c: string, r: Rule, ghost inv: iset<State>) returns (ok: bool, complete: bool)
      requires Stable(inv) && kernel.Now() in inv && Layered(c, r) && !Final(r)
      modifies kernel
      ensures kernel.Now() in inv && Within(old(kernel.log), kernel.log, inv) && old(kernel.faults) <= kernel.faults
      ensures kernel.sets == old(kernel.sets)
      ensures GrownIn(old(kernel.chains), kernel.chains, c, Names(r))
      ensures ok && complete ==>
                c in old(kernel.chains) && kernel.chains == old(kernel.chains)[c := FrontOf(old(kernel.chains)[c], r)]
      ensures !ok ==> !complete
      ensures kernel.faults == old(kernel.faults) && c in old(kernel.chains) && Resolvable(old(kernel.Now()), r) ==>
                ok && complete
    {
      var s := EnsureFront(c, r, inv);
      ok, complete := s == Ok || s == Exit1, s == Ok;
    }

    /** Jump from a pod's chain to every policy that targets the pod. */
    method AddJumps(c: string, ip: Addr, infos: seq<PolicyInfo>, version: string,
                    ghost inv: iset<State>) returns (ok: bool, complete: bool)
      requires Stable(inv) && kernel.Now() in inv && IsPodChain(c)
      modifies kernel
      ensures kernel.Now() in inv && Within(old(kernel.log), kernel.log, inv) && old(kernel.faults) <= kernel.faults
      ensures kernel.sets == old(kernel.sets)
      ensures GrownIn(old(kernel.chains), kernel.chains, c, PolicyChains(digest, infos, version))
      ensures ok && complete ==>
                RulesIn(kernel.chains, c) == FrontAll(RulesIn(old(kernel.chains), c), Jumps(digest, infos, version, ip))
      ensures kernel.faults == old(kernel.faults) && c in old(kernel.chains) &&
                PolicyChains(digest, infos, version) <= old(kernel.chains).Keys ==>
                ok && complete
    {
      hide Stable, Within, GrownIn, IsPodChain, PolicyChainOf;
      ok, complete := true, true;
      ghost var before := kernel.chains;
      ghost var names := PolicyChains(digest, infos, version);
      WithinSame(kernel.log, inv);
      GrownInSame(before, c, names);
      var i := 0;
      while ok && i < |infos|
        invariant 0 <= i <= |infos|
        invariant kernel.Now() in inv && Within(old(kernel.log), kernel.log, inv) && old(kernel.faults) <= kernel.faults
        invariant kernel.sets == old(kernel.sets)
        invariant GrownIn(before, kernel.chains, c, names)
        invariant kernel.faults == old(kernel.faults) && c in before && names <= before.Keys ==> ok && complete
        invariant ok && complete ==>
                    RulesIn(kernel.chains, c) == FrontAll(RulesIn(before, c), Jumps(digest, infos[..i], version, ip))
      {
        JumpsStep(digest, infos, version, ip, i, RulesIn(before, c));
        if ip in infos[i].targets {
          var r := RunThrough(digest, infos[i], version);
          RunThroughLayered(digest, infos[i], version, c);
          assert PolicyChainOf(digest, infos[i], version) in names;
          ghost var mid, log1 := kernel.chains, kernel.log;
          GrownInKeys(before, mid, c, names);
          var added;
          ok, added := AddJump(c, r, inv);
          WithinTrans(old(kernel.log), log1, kernel.log, inv);
          GrownInTrans(before, mid, kernel.chains, c, names, Names(r));
          complete := complete && added;
        }
        i := i + 1;
      }
      if ok {
        assert infos[..i] == infos;
      }
    }

    /** Create a pod's chain and fill in its jumps. */
    method OpenPodChain(c: string, ip: Addr, infos: seq<PolicyInfo>, version: string,
                        ghost inv: iset<State>) returns (ok: bool, complete: bool)
      requires Stable(inv) && kernel.Now() in inv && IsPodChain(c)
      modifies kernel
      ensures kernel.Now() in inv && Within(old(kernel.log), kernel.log, inv) && old(kernel.faults) <= kernel.faults
      ensures kernel.sets == old(kernel.sets)
      ensures GrownBy(old(kernel.chains), kernel.chains, c, PolicyChains(digest, infos, version))
      ensures ok && complete ==>
                RulesIn(kernel.chains, c) == FrontAll(RulesIn(old(kernel.chains), c), Jumps(digest, infos, version, ip))
      ensures kernel.faults == old(kernel.faults) && PolicyChains(digest, infos, version) <= old(kernel.chains).Keys ==>
                ok && complete && c in kernel.chains
    {
      hide Stable, Within, FrontAll, PolicyChains;
      complete := false;
      var created;
      ok, created := EnsureChain(c, inv);
      if ok {
        ghost var log1 := kernel.log;
        ok, complete := AddJumps(c, ip, infos, version, inv);
        WithinTrans(old(kernel.log), log1, kernel.log, inv);
      }
    }

    /** Close a pod's chain with its REJECT and put the stateful accept in front. */
    method ClosePodChain(c: string, pod: PodInfo, ghost inv: iset<State>) returns (ok: bool)
      requires Stable(inv) && kernel.Now() in inv && IsPodChain(c)
      modifies kernel
      ensures kernel.Now() in inv && Within(old(kernel.log), kernel.log, inv) && old(kernel.faults) <= kernel.faults
      ensures kernel.sets == old(kernel.sets)
      ensures GrownBy(old(kernel.chains), kernel.chains, c, {})
      ensures ok ==> c in kernel.chains
                     && kernel.chains[c] == FrontOf(BackOf(RulesIn(old(kernel.chains), c), RejectRest(pod)), STATEFUL)
      ensures ok ==> kernel.chains[c] != [] && Final(kernel.chains[c][|kernel.chains[c]| - 1])
      ensures kernel.faults == old(kernel.faults) && c in old(kernel.chains) ==> ok
    {
      hide Stable, IsPodChain, Layered, Within, GrownBy;
      ClosingLayered(c, pod);
      GrownBySame(kernel.chains, c);
      var s := EnsureBack(c, RejectRest(pod), inv);
      if s == Ok {
        ghost var chains1, log1 := kernel.chains, kernel.log;
        GrownBack(old(kernel.chains), c, RejectRest(pod));
        s := EnsureFront(c, STATEFUL, inv);
        WithinTrans(old(kernel.log), log1, kernel.log, inv);
        if s == Ok {
          GrownFront(chains1, c, STATEFUL);
          GrownByTrans(old(kernel.chains), chains1, kernel.chains, c, {});
          assert RejectRest(pod) in kernel.chains[c];
          ClosingRuleLast(inv, kernel.Now(), c, RejectRest(pod));
        }
      }
      ok := s == Ok;
    }

    /** Put a jump to `c` at the front of a base chain. */
    method LinkOne(base: string, r: Rule, c: string, pod: PodInfo, toPod: bool,
                   ghost inv: iset<State>) returns (ok: bool)
      requires Stable(inv) && kernel.Now() in inv && base in {FORWARD, OUTPUT} && r in BaseJumps(base, toPod, pod, c)
      requires Layered(base, r) && !Final(r) && Names(r) == {c} && r.target == Jump(c) && SetsOf(r) == {}
      modifies kernel
      ensures kernel.Now() in inv && Within(old(kernel.log), kernel.log, inv) && old(kernel.faults) <= kernel.faults
      ensures kernel.sets == old(kernel.sets)
      ensures Linked(old(kernel.chains), kernel.chains, c)
      ensures BasesFronted(old(kernel.chains), kernel.chains, toPod, pod, c)
      ensures ok ==> base in kernel.chains && r in kernel.chains[base]
      ensures kernel.faults == old(kernel.faults) && c in old(kernel.chains) ==> ok
    {
      hide BasesFronted, BaseJumps;
      BaseChains(inv, kernel.Now());
      BasesFrontedSame(kernel.chains, toPod, pod, c);
      BasesFrontedOne(kernel.chains, base, r, toPod, pod, c);
      var s := EnsureFront(base, r, inv);
      ok := s == Ok;
    }

    /** Send the traffic of a pod through its chain: rules in FORWARD, and in OUTPUT for traffic to the pod. */
    method LinkPod(c: string, pod: PodInfo, toPod: bool, ghost inv: iset<State>) returns (ok: bool)
      requires Stable(inv) && kernel.Now() in inv && IsPodChain(c)
      modifies kernel
      ensures kernel.Now() in inv && Within(old(kernel.log), kernel.log, inv) && old(kernel.faults) <= kernel.faults
      ensures kernel.sets == old(kernel.sets)
      ensures Linked(old(kernel.chains), kernel.chains, c)
      ensures BasesFronted(old(kernel.chains), kernel.chains, toPod, pod, c)
      ensures ok ==> Links(kernel.chains, pod, c, toPod)
      ensures kernel.faults == old(kernel.faults) && c in old(kernel.chains) ==> ok
    {
      hide Stable, Within, IsPodChain, Layered, Names, JumpToPod, Final, Linked, BasesFronted;
      var routed, switched := Routed(toPod, pod, c), Switched(toPod, pod, c);
      JumpLayered(toPod, pod, c, [Way(toPod, pod.ip)]);
      JumpLayered(toPod, pod, c, [Bridged, Way(toPod, pod.ip)]);
      ok := LinkOne(FORWARD, routed, c, pod, toPod, inv);
      ghost var log1, chains1 := kernel.log, kernel.chains;
      LinkedKeys(old(kernel.chains), chains1, c);
      if ok && toPod {
        ok := LinkOne(OUTPUT, routed, c, pod, toPod, inv);
        WithinTrans(old(kernel.log), log1, kernel.log, inv);
        LinkedTrans(old(kernel.chains), chains1, kernel.chains, c);
        BasesFrontedTrans(old(kernel.chains), chains1, kernel.chains, toPod, pod, c);
        LinkedKeys(chains1, kernel.chains, c);
      }
      ghost var log2, chains2 := kernel.log, kernel.chains;
      if ok {
        ok := LinkOne(FORWARD, switched, c, pod, toPod, inv);
        WithinTrans(old(kernel.log), log2, kernel.log, inv);
        LinkedTrans(old(kernel.chains), chains2, kernel.chains, c);
        BasesFrontedTrans(old(kernel.chains), chains2, kernel.chains, toPod, pod, c);
      }
      BaseChains(inv, kernel.Now());
      if ok {
        LinkedKeeps(chains1, chains2, c, FORWARD, routed);
        LinkedKeeps(chains2, kernel.chains, c, FORWARD, routed);
        if toPod {
          LinkedKeeps(chains2, kernel.chains, c, OUTPUT, routed);
        }
      }
    }

    /** Create a pod's chain and fill in its jumps and, for traffic to the pod, the rule for the local node. */
    method FillPodChain(c: string, pod: PodInfo, toPod: bool, infos: seq<PolicyInfo>, version: string,
                        ghost inv: iset<State>)
      returns (ok: bool, complete: bool)
      requires Stable(inv) && kernel.Now() in inv && IsPodChain(c)
      modifies kernel
      ensures kernel.Now() in inv && Within(old(kernel.log), kernel.log, inv) && old(kernel.faults) <= kernel.faults
      ensures kernel.sets == old(kernel.sets)
      ensures GrownBy(old(kernel.chains), kernel.chains, c, PolicyChains(digest, infos, version))
      ensures ok && complete ==>
                RulesIn(kernel.chains, c) ==
                  Filled(RulesIn(old(kernel.chains), c), pod, Jumps(digest, infos, version, pod.ip), toPod)
      ensures kernel.faults == old(kernel.faults) && PolicyChains(digest, infos, version) <= old(kernel.chains).Keys ==>
                ok && complete && c in kernel.chains
    {
      hide Stable, Within, FrontAll, PolicyChains, IsPodChain, GrownBy, Layered;
      ok, complete := OpenPodChain(c, pod.ip, infos, version, inv);
      if ok && toPod {
        ghost var log1, chains1 := kernel.log, kernel.chains;
        LocalLayered(c, pod);
        var s := EnsureFront(c, LocalNode(pod.ip), inv);
        WithinTrans(old(kernel.log), log1, kernel.log, inv);
        ok := s == Ok;
        if ok {
          GrownFront(chains1, c, LocalNode(pod.ip));
          GrownByTrans(old(kernel.chains), chains1, kernel.chains, c, PolicyChains(digest, infos, version));
        }
      }
    }

    /** One round of the ingress loop (`toPod`) or of the egress loop. */
    method SyncPod(pod: PodInfo, toPod: bool, infos: seq<PolicyInfo>, version: string,
                   ghost inv: iset<State>) returns (ok: bool, complete: bool)
      requires Stable(inv) && kernel.Now() in inv
      modifies kernel
      ensures kernel.Now() in inv && Within(old(kernel.log), kernel.log, inv) && old(kernel.faults) <= kernel.faults
      ensures kernel.sets == old(kernel.sets)
      ensures PodDone(old(kernel.Now()), kernel.Now(), pod, PodChainOf(digest, pod, version), toPod,
                      PolicyChains(digest, infos, version), Jumps(digest, infos, version, pod.ip), ok, complete)
      ensures kernel.faults == old(kernel.faults) && PolicyChains(digest, infos, version) <= old(kernel.chains).Keys ==>
                ok && complete
    {
      hide Stable, Within, GrownBy, Linked, Grown, Filled, Pass, FrontOf, BackOf, PolicyChains, Jumps, PodDone,
           BasesFronted, Links;
      var c := PodChainOf(digest, pod, version);
      ghost var a, policies, jumps := kernel.Now(), PolicyChains(digest, infos, version),
        Jumps(digest, infos, version, pod.ip);
      ok, complete := FillPodChain(c, pod, toPod, infos, version, inv);
      ghost var m1, log1 := kernel.Now(), kernel.log;
      BaseChains(inv, m1);
      LinkedSame(m1.chains, c);
      BasesFrontedSame(m1.chains, toPod, pod, c);
      if ok {
        ok := LinkPod(c, pod, toPod, inv);
        WithinTrans(old(kernel.log), log1, kernel.log, inv);
        LinkedKeys(m1.chains, kernel.chains, c);
      }
      ghost var m2, log2 := kernel.Now(), kernel.log;
      GrownBySame(m2.chains, c);
      if ok {
        ok := ClosePodChain(c, pod, inv);
        WithinTrans(old(kernel.log), log2, kernel.log, inv);
      }
      PodDoneOf(a, m1, m2, kernel.Now(), pod, c, toPod, policies, jumps, ok, complete);
    }

    /** Refresh a set that exists. */
    method RefreshSet(name: string, kind: Kind, entries: seq<SetEntry>, ghost inv: iset<State>) returns (clean: bool)
      requires Wired() && Stable(inv) && kernel.Now() in inv && IsSetName(name) && name in ipsets.cache
      modifies kernel, ipsets
      ensures kernel.Now() in inv && Within(old(kernel.log), kernel.log, inv) && old(kernel.faults) <= kernel.faults
      ensures kernel.chains == old(kernel.chains)
      ensures OtherSetsKept(old(kernel.sets), kernel.sets, {name})
      ensures forall n :: IsSetName(n) && n in ipsets.cache ==>
                n in old(ipsets.cache) && ipsets.cache[n] == old(ipsets.cache)[n]
      ensures clean && NoLeftovers(old(kernel.sets)) && old(ipsets.cache)[name] == kind ==>
                NoLeftovers(kernel.sets) && Holding(kernel.sets, name, kind, entries)
      ensures name in kernel.sets <==> name in old(kernel.sets)
      ensures kernel.faults == old(kernel.faults) && NoLeftovers(old(kernel.sets)) &&
                HasKind(old(kernel.sets), name, old(ipsets.cache)[name]) && AllFit(old(ipsets.cache)[name], entries) ==>
                clean
    {
      var suffix := if kind == IpKind then "-" else "-temp";
      var temp := name + suffix;
      TempIsFree(inv, kernel.Now(), name, suffix);
      TempPasses(name, suffix);
      ghost var filled := Refreshed(kernel.sets, temp, ipsets.cache[name], entries);
      var s := ipsets.Refresh(name, entries, suffix);
      clean := s == Ok;
      assert ClosedSets(inv);
      CacheKept(old(ipsets.cache), ipsets.cache, temp);
      MidRefreshKeeps(old(kernel.Now()), kernel.Now(), name, temp, filled);
    }

    /** Ensure that a set exists. */
    method CreateSet(name: string, kind: Kind, ghost inv: iset<State>) returns (ok: bool)
      requires Wired() && Stable(inv) && kernel.Now() in inv && IsSetName(name)
      modifies kernel, ipsets
      ensures kernel.Now() in inv && Within(old(kernel.log), kernel.log, inv) && old(kernel.faults) <= kernel.faults
      ensures kernel.chains == old(kernel.chains)
      ensures OtherSetsKept(old(kernel.sets), kernel.sets, {name})
      ensures ipsets.cache == if name in old(ipsets.cache) then old(ipsets.cache) else old(ipsets.cache)[name := kind]
      ensures name in old(kernel.sets) ==> name in kernel.sets && kernel.sets[name] == old(kernel.sets)[name]
      ensures NoLeftovers(old(kernel.sets)) ==> NoLeftovers(kernel.sets)
      ensures ok ==> name in kernel.sets && (name !in old(kernel.sets) ==> kernel.sets[name] == EmptySet(kind))
      ensures kernel.faults == old(kernel.faults) ==> ok
    {
      var s := ipsets.Create(name, kind);
      ok := s == Ok;
      assert ClosedSets(inv);
    }

    /** Ensure that a set exists and refresh it; a failed refresh is only reported. */
    method UseSet(name: string, kind: Kind, entries: seq<SetEntry>, ghost inv: iset<State>)
      returns (ok: bool, clean: bool)
      requires Wired() && Stable(inv) && kernel.Now() in inv && IsSetName(name)
      modifies kernel, ipsets
      ensures kernel.Now() in inv && Within(old(kernel.log), kernel.log, inv) && old(kernel.faults) <= kernel.faults
      ensures kernel.chains == old(kernel.chains)
      ensures OtherSetsKept(old(kernel.sets), kernel.sets, {name})
      ensures CacheExtends(old(ipsets.cache), ipsets.cache, name, kind)
      ensures clean ==> ok
      ensures clean && NoLeftovers(old(kernel.sets)) &&
                (name in old(ipsets.cache) ==> old(ipsets.cache)[name] == kind) ==>
                NoLeftovers(kernel.sets) && Holding(kernel.sets, name, kind, entries)
      ensures ok ==> name in kernel.sets
      ensures kernel.faults == old(kernel.faults) &&
                CanUse(Memory(old(kernel.Now()), old(ipsets.cache)), name, kind, entries) ==>
                clean
      ensures kernel.faults == old(kernel.faults) ==> ok
    {
      hide Stable;
      clean := false;
      ok := CreateSet(name, kind, inv);
      if ok {
        clean := RefreshSet(name, kind, entries, inv);
      }
    }

    /** Issue one command of a policy; `clean` tells whether a refresh in it went through. */
    method ApplyOp(c: string, op: Op, ghost names: iset<string>, ghost inv: iset<State>) returns (ok: bool, clean: bool)
      requires Wired() && Stable(inv) && kernel.Now() in inv && IsPolicyChain(c) && TidyOp(op, names)
      modifies kernel, ipsets
      ensures kernel.Now() in inv && Within(old(kernel.log), kernel.log, inv) && old(kernel.faults) <= kernel.faults
      ensures OpDone(Memory(old(kernel.Now()), old(ipsets.cache)), Memory(kernel.Now(), ipsets.cache), c, op, ok, clean)
      ensures kernel.faults == old(kernel.faults) && CanApply(Memory(old(kernel.Now()), old(ipsets.cache)), c, op) ==>
                ok && clean
      ensures kernel.faults == old(kernel.faults) ==>
                ok || (op.AppendOp? && !(c in old(kernel.chains) && Resolvable(old(kernel.Now()), op.rule)))
    {
      hide Stable, Contents;
      clean := true;
      match op {
        case AppendOp(r) =>
          ChainKindsDisjoint(c);
          var s := EnsureBack(c, r, inv);
          ok := s == Ok;
        case CreateOp(n, kind) =>
          ok := CreateSet(n, kind, inv);
        case UseOp(n, kind, entries) =>
          ok, clean := UseSet(n, kind, entries, inv);
      }
    }

    /** Issue the commands of one policy. `all` is any collection of commands that these belong to. */
    method ApplyOps(c: string, ops: seq<Op>, ghost all: seq<Op>, ghost inv: iset<State>)
      returns (ok: bool, active: set<string>, clean: bool)
      requires Wired() && Stable(inv) && kernel.Now() in inv && IsPolicyChain(c) && Tidy(ops, iset{})
      modifies kernel, ipsets
      ensures kernel.Now() in inv && Within(old(kernel.log), kernel.log, inv) && old(kernel.faults) <= kernel.faults
      ensures ok ==>
                OpsDone(Memory(old(kernel.Now()), old(ipsets.cache)), Memory(kernel.Now(), ipsets.cache), c, ops,
                        active, clean)
      ensures kernel.faults == old(kernel.faults) &&
                CanApplyAll(Memory(old(kernel.Now()), old(ipsets.cache)), c, ops, all) ==>
                ok && clean && Steady(Memory(kernel.Now(), ipsets.cache), all)
      ensures kernel.faults == old(kernel.faults) && c in old(kernel.chains) ==> ok && c in kernel.chains
    {
      hide OpsDone, OpDone, CanApply, Steady, Stable, Within, CanApplyAll, Tidy, TidyOp, Declared, Resolvable;
      ok, active, clean := true, {}, true;
      ghost var before := Memory(kernel.Now(), ipsets.cache);
      OpsStart(before, c);
      WithinSame(kernel.log, inv);
      StartsSteady(before, c, ops, all);
      var i := 0;
      while i < |ops|
        invariant 0 <= i <= |ops| && ok
        invariant kernel.Now() in inv && Within(old(kernel.log), kernel.log, inv) && old(kernel.faults) <= kernel.faults
        invariant OpsDone(before, Memory(kernel.Now(), ipsets.cache), c, ops[..i], active, clean)
        invariant kernel.faults == old(kernel.faults) && CanApplyAll(before, c, ops, all) ==>
                    clean && Steady(Memory(kernel.Now(), ipsets.cache), all)
      {
        var op := ops[i];
        ghost var mid, log1 := Memory(kernel.Now(), ipsets.cache), kernel.log;
        TidyMember(ops, iset{}, i);
        ghost var names := iset{} + Declared(ops);
        NextResolves(before, mid, c, ops, i, active, clean);
        if CanApplyAll(before, c, ops, all) && Steady(mid, all) {
          NextApplies(before, mid, c, ops, i, active, clean, all);
        }
        var refreshed;
        ok, refreshed := ApplyOp(c, op, names, inv);
        WithinTrans(old(kernel.log), log1, kernel.log, inv);
        if !ok {
          return;
        }
        assert ops[..i + 1] == ops[..i] + [op];
        TidyPrefix(ops, i);
        OpsStep(before, mid, Memory(kernel.Now(), ipsets.cache), c, ops[..i], op, active, clean, refreshed, names);
        if refreshed && CanApplyAll(before, c, ops, all) && Steady(mid, all) {
          StaysSteady(before, mid, Memory(kernel.Now(), ipsets.cache), c, ops, i, all);
        }
        active := if op.AppendOp? then active else active + {op.name};
        clean := clean && refreshed;
        i := i + 1;
      }
      assert ops[..i] == ops;
      ChainStays(before, Memory(kernel.Now(), ipsets.cache), c, ops, active, clean);
    }
  }
}
