/** The first phase of a sync: one chain and its sets for every policy. */
module SyncPolicies {
  import opened Netfilter
  import opened Kernel
  import opened Naming
  import opened Policies
  import opened Compile
  import opened CompileSets
  import opened Firewall
  import opened PodChains
  import opened Sync

  ghost function AllOps(d: Digest, infos: seq<PolicyInfo>): seq<Op> {
    if infos == [] then [] else AllOps(d, infos[..|infos| - 1]) + PolicyOps(d, infos[|infos| - 1])
  }

  lemma {:induction false} AllOpsContain(d: Digest, infos: seq<PolicyInfo>, i: nat)
    requires i < |infos|
    ensures forall op :: op in PolicyOps(d, infos[i]) ==> op in AllOps(d, infos)
  {
    hide PolicyOps;
    if i < |infos| - 1 {
      AllOpsContain(d, infos[..|infos| - 1], i);
    }
  }

  /** The rules that were added to a chain match on these sets only. */
  ghost predicate AddedUsing(before: Chains, now: Chains, k: string, active: set<string>) {
    forall r :: r in RulesIn(now, k) ==> r in RulesIn(before, k) || SetsOf(r) <= active
  }

  /** The chain was created and holds exactly the compiled rules. */
  ghost predicate Written(before: Chains, now: Chains, c: string, ops: seq<Op>) {
    && c !in before && c in now
    && forall r :: r in now[c] <==> AppendOp(r) in ops
  }

  ghost predicate SetsDone(a: Memory, b: Memory, ops: seq<Op>, active: set<string>, clean: bool) {
    && (forall n :: n in active <==> n in Declared(ops))
    && UnusedKept(a.st.sets, b.st.sets, ops)
    && CacheFrom(a.cache, b.cache, ops)
    && (clean && NoLeftovers(a.st.sets) && Coherent(ops) && CacheAgrees(a.cache, ops) ==>
          NoLeftovers(b.st.sets) && Realised(ops, b.st.sets))
  }

  /** One policy has been synchronised; `clean` when every command for it went through. */
  ghost predicate PolicyDone(a: Memory, b: Memory, c: string, ops: seq<Op>, active: set<string>, clean: bool) {
    && SameExcept(b.st.chains, a.st.chains, {c})
    && AddedUsing(a.st.chains, b.st.chains, c, active)
    && (clean ==> Written(a.st.chains, b.st.chains, c, ops))
    && SetsDone(a, b, ops, active, clean)
  }

  lemma PolicyDoneOf(a: Memory, m: Memory, b: Memory, c: string, ops: seq<Op>, active: set<string>, created: bool,
                     clean: bool)
    requires m == a || (c !in a.st.chains && m == a.(st := a.st.(chains := a.st.chains[c := []])))
    requires created ==> m != a && c !in a.st.chains
    requires OpsDone(m, b, c, ops, active, clean) && forall op :: op in ops ==> TidyOp(op, Declared(ops))
    ensures PolicyDone(a, b, c, ops, active, created && clean)
  {
    hide CacheFrom, UnusedKept, Coherent, CacheAgrees, Realised, NoLeftovers, Declared;
    forall r | r in RulesIn(b.st.chains, c)
      ensures r in RulesIn(a.st.chains, c) || SetsOf(r) <= active
    {
      if AppendOp(r) in ops {
        assert TidyOp(AppendOp(r), Declared(ops));
      }
    }
  }

  ghost predicate Named(ops: seq<Op>) {
    forall op :: op in ops && !op.AppendOp? ==> IsSetName(op.name)
  }

  /** A policy, among all commands of a sync, finds nothing in its way. */
  ghost predicate CanSync(a: Memory, c: string, ops: seq<Op>, all: seq<Op>) {
    && c !in a.st.chains && Steady(a, all) && Coherent(all) && Fit(ops) && Named(all)
    && forall op :: op in ops ==> op in all
  }

  lemma CanSyncApplies(a: Memory, m: Memory, c: string, ops: seq<Op>, all: seq<Op>)
    requires CanSync(a, c, ops, all) && Tidy(ops, iset{}) && m.st.sets == a.st.sets && m.cache == a.cache
    requires c in m.st.chains
    ensures CanApplyAll(m, c, ops, all)
  {
    hide Tidy, Coherent, Fit, NoLeftovers;
  }

  lemma NewForSync(a: Memory, c: string, ops: seq<Op>, all: seq<Op>)
    ensures CanSync(a, c, ops, all) ==> c !in a.st.chains
  {
  }

  /** Synchronise one policy. */
  method SyncPolicy(npc: Controller, info: PolicyInfo, version: string, ghost all: seq<Op>, ghost inv: iset<State>)
    returns (ok: bool, active: set<string>, clean: bool)
    requires npc.Wired() && Stable(inv) && npc.kernel.Now() in inv
    modifies npc.kernel, npc.ipsets
    ensures npc.kernel.Now() in inv && Within(old(npc.kernel.log), npc.kernel.log, inv)
    ensures old(npc.kernel.faults) <= npc.kernel.faults
    ensures ok ==> PolicyDone(Memory(old(npc.kernel.Now()), old(npc.ipsets.cache)),
                              Memory(npc.kernel.Now(), npc.ipsets.cache),
                              PolicyChainOf(npc.digest, info, version), PolicyOps(npc.digest, info), active, clean)
    ensures npc.kernel.faults == old(npc.kernel.faults) ==>
              (CanSync(Memory(old(npc.kernel.Now()), old(npc.ipsets.cache)), PolicyChainOf(npc.digest, info, version),
                       PolicyOps(npc.digest, info), all) ==>
                 ok && clean && Steady(Memory(npc.kernel.Now(), npc.ipsets.cache), all))
    ensures npc.kernel.faults == old(npc.kernel.faults) ==>
              ok && PolicyChainOf(npc.digest, info, version) in npc.kernel.chains
  {
    hide Stable, Within, OpsDone, PolicyDone, PolicyOps, Tidy, CanSync, CanApplyAll, Steady;
    active, clean := {}, false;
    var c := PolicyChainOf(npc.digest, info, version);
    ghost var a := Memory(npc.kernel.Now(), npc.ipsets.cache);
    var created;
    ok, created := npc.EnsureChain(c, inv);
    var ops := PolicyOps(npc.digest, info);
    NewForSync(a, c, ops, all);
    if ok {
      ghost var m := Memory(npc.kernel.Now(), npc.ipsets.cache);
      ghost var log1 := npc.kernel.log;
      PolicyTidy(npc.digest, info);
      TidyEach(ops);
      if CanSync(a, c, ops, all) && c in m.st.chains {
        CanSyncApplies(a, m, c, ops, all);
      }
      ok, active, clean := npc.ApplyOps(c, ops, all, inv);
      WithinTrans(old(npc.kernel.log), log1, npc.kernel.log, inv);
      if ok {
        PolicyDoneOf(a, m, Memory(npc.kernel.Now(), npc.ipsets.cache), c, ops, active, created, clean);
      }
      clean := clean && created;
    }
  }

  ghost predicate AllWritten(d: Digest, before: Chains, now: Chains, infos: seq<PolicyInfo>, version: string) {
    forall i :: 0 <= i < |infos| ==> Written(before, now, PolicyChainOf(d, infos[i], version), PolicyOps(d, infos[i]))
  }

  /** All the policies have been synchronised; `clean` when every command went through. */
  ghost predicate PoliciesDone(d: Digest, a: Memory, b: Memory, infos: seq<PolicyInfo>, version: string,
                               active: set<string>, clean: bool) {
    && SameExcept(b.st.chains, a.st.chains, PolicyChains(d, infos, version))
    && (forall k :: AddedUsing(a.st.chains, b.st.chains, k, active))
    && (clean ==> AllWritten(d, a.st.chains, b.st.chains, infos, version))
    && (clean ==> DistinctPolicyChains(d, infos, version))
    && SetsDone(a, b, AllOps(d, infos), active, clean)
  }

  lemma PolicyNamed(d: Digest, info: PolicyInfo)
    requires ValidDigest(d)
    ensures Named(PolicyOps(d, info))
  {
    PolicyTidy(d, info);
    hide PolicyOps;
    TidyEach(PolicyOps(d, info));
  }

  lemma {:induction false} AllNamed(d: Digest, infos: seq<PolicyInfo>)
    requires ValidDigest(d)
    ensures Named(AllOps(d, infos))
  {
    hide PolicyOps;
    if infos != [] {
      AllNamed(d, infos[..|infos| - 1]);
      PolicyNamed(d, infos[|infos| - 1]);
    }
  }

  lemma UnusedConcat(a: Sets, m: Sets, b: Sets, ops: seq<Op>, more: seq<Op>)
    requires UnusedKept(a, m, ops) && UnusedKept(m, b, more)
    ensures UnusedKept(a, b, ops + more)
  {
    assert forall x :: x in ops + more <==> x in ops || x in more;
    assert forall n :: UsedIn(ops, n) || UsedIn(more, n) ==> UsedIn(ops + more, n);
  }

  lemma LaterCacheAgrees(a: Memory, m: Memory, ops: seq<Op>, more: seq<Op>)
    requires CacheFrom(a.cache, m.cache, ops) && CacheAgrees(a.cache, ops + more) && Coherent(ops + more)
    requires Named(more)
    ensures CacheAgrees(m.cache, more)
  {
    assert forall x :: x in ops + more <==> x in ops || x in more;
  }

  /** Later commands leave the sets that earlier ones filled as they are, or fill them alike. */
  lemma RealisedConcat(m: Memory, b: Memory, ops: seq<Op>, more: seq<Op>)
    requires Realised(ops, m.st.sets) && Realised(more, b.st.sets) && UnusedKept(m.st.sets, b.st.sets, more)
    requires Coherent(ops + more)
    requires Named(ops)
    ensures Realised(ops + more, b.st.sets)
  {
    var all := ops + more;
    assert forall x :: x in all <==> x in ops || x in more;
    forall op | op in all && op.UseOp?
      ensures Holding(b.st.sets, op.name, op.kind, op.entries)
    {
      if op in ops && UsedIn(more, op.name) {
        var other :| other in more && other.UseOp? && other.name == op.name;
        assert op in all && other in all;
      }
    }
  }

  lemma SetsDoneConcat(a: Memory, m: Memory, b: Memory, ops: seq<Op>, more: seq<Op>, active: set<string>,
                       active': set<string>, clean: bool, clean': bool)
    requires SetsDone(a, m, ops, active, clean) && SetsDone(m, b, more, active', clean')
    requires Named(ops) && Named(more)
    ensures SetsDone(a, b, ops + more, active + active', clean && clean')
  {
    var all := ops + more;
    assert forall x :: x in all <==> x in ops || x in more;
    UnusedConcat(a.st.sets, m.st.sets, b.st.sets, ops, more);
    hide UnusedKept;
    if clean && clean' && NoLeftovers(a.st.sets) && Coherent(all) && CacheAgrees(a.cache, all) {
      hide NoLeftovers;
      assert Coherent(ops) && Coherent(more) && CacheAgrees(a.cache, ops);
      LaterCacheAgrees(a, m, ops, more);
      RealisedConcat(m, b, ops, more);
    }
  }

  lemma PolicyChainsGrow(d: Digest, infos: seq<PolicyInfo>, info: PolicyInfo, version: string)
    ensures PolicyChains(d, infos + [info], version) ==
              PolicyChains(d, infos, version) + {PolicyChainOf(d, info, version)}
  {
    hide PolicyChainOf;
    var all := infos + [info];
    assert all[|infos|] == info && forall i :: 0 <= i < |infos| ==> all[i] == infos[i];
  }

  lemma ChainsStep(d: Digest, a: Chains, m: Chains, b: Chains, infos: seq<PolicyInfo>, info: PolicyInfo,
                   version: string, active: set<string>, clean: bool, active': set<string>, clean': bool)
    requires SameExcept(m, a, PolicyChains(d, infos, version)) && SameExcept(b, m, {PolicyChainOf(d, info, version)})
    requires forall k :: AddedUsing(a, m, k, active)
    requires AddedUsing(m, b, PolicyChainOf(d, info, version), active')
    requires clean ==> AllWritten(d, a, m, infos, version) && DistinctPolicyChains(d, infos, version)
    requires clean' ==> Written(m, b, PolicyChainOf(d, info, version), PolicyOps(d, info))
    ensures SameExcept(b, a, PolicyChains(d, infos + [info], version))
    ensures forall k :: AddedUsing(a, b, k, active + active')
    ensures clean && clean' ==>
              AllWritten(d, a, b, infos + [info], version) && DistinctPolicyChains(d, infos + [info], version)
  {
    hide PolicyOps, PolicyChainOf;
    var all := infos + [info];
    PolicyChainsGrow(d, infos, info, version);
    forall k
      ensures AddedUsing(a, b, k, active + active')
    {
      assert AddedUsing(a, m, k, active);
    }
    if clean && clean' {
      var c := PolicyChainOf(d, info, version);
      forall i | 0 <= i < |infos|
        ensures PolicyChainOf(d, infos[i], version) != c
      {
        assert Written(a, m, PolicyChainOf(d, infos[i], version), PolicyOps(d, infos[i]));
      }
      assert c !in PolicyChains(d, infos, version);
      forall i | 0 <= i < |all|
        ensures Written(a, b, PolicyChainOf(d, all[i], version), PolicyOps(d, all[i]))
      {
        assert i < |infos| ==> Written(a, m, PolicyChainOf(d, infos[i], version), PolicyOps(d, infos[i]));
      }
    }
  }

  lemma PoliciesStep(d: Digest, a: Memory, m: Memory, b: Memory, infos: seq<PolicyInfo>, info: PolicyInfo,
                     version: string, active: set<string>, clean: bool, active': set<string>, clean': bool)
    requires ValidDigest(d)
    requires PoliciesDone(d, a, m, infos, version, active, clean)
    requires PolicyDone(m, b, PolicyChainOf(d, info, version), PolicyOps(d, info), active', clean')
    ensures PoliciesDone(d, a, b, infos + [info], version, active + active', clean && clean')
  {
    hide PolicyOps, SetsDone;
    var all := infos + [info];
    assert all[..|all| - 1] == infos;
    AllNamed(d, infos);
    PolicyNamed(d, info);
    SetsDoneConcat(a, m, b, AllOps(d, infos), PolicyOps(d, info), active, active', clean, clean');
    ChainsStep(d, a.st.chains, m.st.chains, b.st.chains, infos, info, version, active, clean, active', clean');
  }

  /** A sync of these policies finds nothing in its way. */
  ghost predicate CanSyncAll(d: Digest, a: Memory, infos: seq<PolicyInfo>, version: string) {
    && PolicyChains(d, infos, version) !! a.st.chains.Keys && DistinctPolicyChains(d, infos, version)
    && Steady(a, AllOps(d, infos)) && Coherent(AllOps(d, infos))
    && forall i :: 0 <= i < |infos| ==> Fit(PolicyOps(d, infos[i]))
  }

  lemma CanSyncNext(d: Digest, a: Memory, m: Memory, infos: seq<PolicyInfo>, version: string, i: nat,
                    active: set<string>, clean: bool)
    requires ValidDigest(d) && i < |infos| && CanSyncAll(d, a, infos, version) && Steady(m, AllOps(d, infos))
    requires PoliciesDone(d, a, m, infos[..i], version, active, clean)
    ensures CanSync(m, PolicyChainOf(d, infos[i], version), PolicyOps(d, infos[i]), AllOps(d, infos))
  {
    hide PolicyOps, Steady, Coherent, Fit, SetsDone, AllOps, AddedUsing, AllWritten, PolicyChainOf;
    AllNamed(d, infos);
    AllOpsContain(d, infos, i);
    var c := PolicyChainOf(d, infos[i], version);
    assert c in PolicyChains(d, infos, version);
    forall j | 0 <= j < i
      ensures PolicyChainOf(d, infos[..i][j], version) != c
    {
      assert infos[..i][j] == infos[j];
    }
    assert c !in PolicyChains(d, infos[..i], version);
  }

  lemma SteadyAtStart(d: Digest, a: Memory, infos: seq<PolicyInfo>, version: string)
    ensures CanSyncAll(d, a, infos, version) ==> Steady(a, AllOps(d, infos))
  {
  }

  lemma PoliciesStart(d: Digest, a: Memory, version: string)
    ensures PoliciesDone(d, a, a, [], version, {}, true)
  {
  }

  lemma NoPolicies(d: Digest, version: string)
    ensures PolicyChains(d, [], version) == {}
  {
  }

  lemma OtherChainsStay(a: Memory, b: Memory, c: string, ops: seq<Op>, active: set<string>, clean: bool)
    requires PolicyDone(a, b, c, ops, active, clean)
    ensures forall k :: k in a.st.chains && k != c ==> k in b.st.chains
  {
    hide SetsDone, AddedUsing;
  }

  /** Synchronise every policy, stopping at the first command that cannot be passed over. */
  method SyncNetworkPolicyChains(npc: Controller, infos: seq<PolicyInfo>, version: string, ghost inv: iset<State>)
    returns (ok: bool, chains: set<string>, active: set<string>, clean: bool)
    requires npc.Wired() && Stable(inv) && npc.kernel.Now() in inv
    modifies npc.kernel, npc.ipsets
    ensures npc.kernel.Now() in inv && Within(old(npc.kernel.log), npc.kernel.log, inv)
    ensures old(npc.kernel.faults) <= npc.kernel.faults
    ensures ok ==> chains == PolicyChains(npc.digest, infos, version)
    ensures ok ==> PoliciesDone(npc.digest, Memory(old(npc.kernel.Now()), old(npc.ipsets.cache)),
                                Memory(npc.kernel.Now(), npc.ipsets.cache), infos, version, active, clean)
    ensures npc.kernel.faults == old(npc.kernel.faults) ==>
              (CanSyncAll(npc.digest, Memory(old(npc.kernel.Now()), old(npc.ipsets.cache)), infos, version) ==>
                ok && clean)
    ensures npc.kernel.faults == old(npc.kernel.faults) ==>
              ok && PolicyChains(npc.digest, infos, version) <= npc.kernel.chains.Keys
  {
    hide Stable, Within, PoliciesDone, PolicyDone, PolicyOps, CanSyncAll, CanSync, Steady, AllOps, PolicyChains;
    ok, chains, active, clean := true, {}, {}, true;
    ghost var a, all := Memory(npc.kernel.Now(), npc.ipsets.cache), AllOps(npc.digest, infos);
    PoliciesStart(npc.digest, a, version);
    WithinSame(npc.kernel.log, inv);
    SteadyAtStart(npc.digest, a, infos, version);
    NoPolicies(npc.digest, version);
    var i := 0;
    while i < |infos|
      invariant 0 <= i <= |infos| && ok
      invariant npc.kernel.Now() in inv && Within(old(npc.kernel.log), npc.kernel.log, inv)
      invariant old(npc.kernel.faults) <= npc.kernel.faults
      invariant chains == PolicyChains(npc.digest, infos[..i], version)
      invariant PoliciesDone(npc.digest, a, Memory(npc.kernel.Now(), npc.ipsets.cache), infos[..i], version, active,
                             clean)
      invariant npc.kernel.faults == old(npc.kernel.faults) ==> chains <= npc.kernel.chains.Keys
      invariant npc.kernel.faults == old(npc.kernel.faults) && CanSyncAll(npc.digest, a, infos, version) ==>
                  clean && Steady(Memory(npc.kernel.Now(), npc.ipsets.cache), all)
    {
      ghost var m, log1 := Memory(npc.kernel.Now(), npc.ipsets.cache), npc.kernel.log;
      if CanSyncAll(npc.digest, a, infos, version) && Steady(m, all) {
        CanSyncNext(npc.digest, a, m, infos, version, i, active, clean);
      }
      var more, cleanly;
      ok, more, cleanly := SyncPolicy(npc, infos[i], version, all, inv);
      WithinTrans(old(npc.kernel.log), log1, npc.kernel.log, inv);
      if !ok {
        return;
      }
      PoliciesStep(npc.digest, a, m, Memory(npc.kernel.Now(), npc.ipsets.cache), infos[..i], infos[i], version, active,
                   clean, more, cleanly);
      PolicyChainsGrow(npc.digest, infos[..i], infos[i], version);
      OtherChainsStay(m, Memory(npc.kernel.Now(), npc.ipsets.cache), PolicyChainOf(npc.digest, infos[i], version),
                      PolicyOps(npc.digest, infos[i]), more, cleanly);
      assert infos[..i] + [infos[i]] == infos[..i + 1];
      chains, active, clean := chains + {PolicyChainOf(npc.digest, infos[i], version)}, active + more, clean && cleanly;
      i := i + 1;
    }
    assert infos[..i] == infos;
  }
}
