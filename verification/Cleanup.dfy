/** The last phase of a sync: chains and sets that no longer serve are taken away. */
module Cleanup {
  import opened Netfilter
  import opened Kernel
  import opened Naming
  import opened Firewall
  import opened Sync
  import opened Deletion

  /** The base chains without the rules that mention these chains; everything else is as before. */
  ghost predicate Unlinked(before: Chains, now: Chains, stale: set<string>) {
    && FORWARD in before && OUTPUT in before
    && now == before[FORWARD := Clear(before[FORWARD], stale)][OUTPUT := Clear(before[OUTPUT], stale)]
  }

  lemma UnlinkedStart(before: Chains)
    requires FORWARD in before && OUTPUT in before
    ensures Unlinked(before, before, {})
  {
    ClearSame(before[FORWARD], {});
    ClearSame(before[OUTPUT], {});
  }

  lemma UnlinkedStep(before: Chains, m: Chains, now: Chains, stale: set<string>, c: string)
    requires Unlinked(before, m, stale)
    requires FORWARD in m && OUTPUT in m && now == m[FORWARD := Clear(m[FORWARD], {c})][OUTPUT := Clear(m[OUTPUT], {c})]
    ensures Unlinked(before, now, stale + {c})
  {
    hide Clear;
    assert FORWARD != OUTPUT;
    ClearTwice(before[FORWARD], stale, {c});
    ClearTwice(before[OUTPUT], stale, {c});
  }

  /** Unlink one pod chain: list both base chains, then delete from each. */
  method UnlinkPodChain(kernel: Kernel, c: string, ghost w: map<Cond, string>) returns (ok: bool)
    requires Good(kernel.Now(), w) && IsPodChain(c) && c !in w.Values
    modifies kernel
    ensures Good(kernel.Now(), w) && Within(old(kernel.log), kernel.log, GoodStates(w))
    ensures old(kernel.faults) <= kernel.faults
    ensures kernel.sets == old(kernel.sets)
    ensures ok ==> FORWARD in old(kernel.chains) && OUTPUT in old(kernel.chains)
    ensures ok ==>
              var before := old(kernel.chains);
              kernel.chains == before[FORWARD := Clear(before[FORWARD], {c})][OUTPUT := Clear(before[OUTPUT], {c})]
    ensures kernel.faults == old(kernel.faults) && FORWARD in old(kernel.chains) && OUTPUT in old(kernel.chains) ==> ok
  {
    hide Good, Within, Clear, Visited, IsPodChain;
    assert FORWARD != OUTPUT;
    WithinSame(kernel.log, GoodStates(w));
    var s, forward := kernel.List(FORWARD);
    var t, output := kernel.List(OUTPUT);
    ok := s == Ok && t == Ok;
    if ok {
      ok := DeleteMentions(kernel, FORWARD, forward, c, w);
    }
    if ok {
      ghost var log1 := kernel.log;
      ok := DeleteMentions(kernel, OUTPUT, output, c, w);
      WithinTrans(old(kernel.log), log1, kernel.log, GoodStates(w));
    }
  }

  /** Unlink every stale pod chain from the base chains, in any order. */
  method UnlinkPodChains(kernel: Kernel, stale: set<string>, ghost w: map<Cond, string>) returns (ok: bool)
    requires Good(kernel.Now(), w) && forall c :: c in stale ==> IsPodChain(c) && c !in w.Values
    modifies kernel
    ensures Good(kernel.Now(), w) && Within(old(kernel.log), kernel.log, GoodStates(w))
    ensures old(kernel.faults) <= kernel.faults
    ensures kernel.sets == old(kernel.sets)
    ensures ok ==> Unlinked(old(kernel.chains), kernel.chains, stale)
    ensures kernel.faults == old(kernel.faults) ==> ok
  {
    assert FORWARD in kernel.chains && OUTPUT in kernel.chains;
    hide Good, Within, Clear, IsPodChain, Unlinked;
    ok := true;
    WithinSame(kernel.log, GoodStates(w));
    UnlinkedStart(kernel.chains);
    var todo := stale;
    ghost var done := {};
    while todo != {}
      invariant ok && done + todo == stale && done !! todo
      invariant Good(kernel.Now(), w) && Within(old(kernel.log), kernel.log, GoodStates(w))
      invariant old(kernel.faults) <= kernel.faults
      invariant kernel.sets == old(kernel.sets)
      invariant Unlinked(old(kernel.chains), kernel.chains, done)
      decreases todo
    {
      var c :| c in todo;
      ghost var m, log1 := kernel.chains, kernel.log;
      ok := UnlinkPodChain(kernel, c, w);
      WithinTrans(old(kernel.log), log1, kernel.log, GoodStates(w));
      if !ok {
        return;
      }
      UnlinkedStep(old(kernel.chains), m, kernel.chains, done, c);
      done, todo := done + {c}, todo - {c};
    }
  }

  /** These chains are gone and the others are as before. */
  ghost predicate Removed(before: Chains, now: Chains, gone: set<string>) {
    forall k :: (k in now <==> k in before && k !in gone) && (k in now && k in before ==> now[k] == before[k])
  }

  /** Flush and delete a chain; `blocked` when the kernel refuses because the chain is referenced. */
  method RemoveChain(kernel: Kernel, c: string, ghost w: map<Cond, string>) returns (ok: bool, blocked: bool)
    requires Good(kernel.Now(), w) && c != FORWARD && c != OUTPUT && c in kernel.chains && c !in w.Values
    modifies kernel
    ensures Good(kernel.Now(), w) && Within(old(kernel.log), kernel.log, GoodStates(w))
    ensures old(kernel.faults) <= kernel.faults
    ensures kernel.sets == old(kernel.sets)
    ensures ok ==> Removed(old(kernel.chains), kernel.chains, {c})
    ensures blocked ==> !ok && Referenced(old(kernel.chains), c)
    ensures kernel.faults == old(kernel.faults) && !Referenced(old(kernel.chains), c) ==> ok
  {
    hide Good;
    blocked := false;
    GoodClear(kernel.Now(), w, c);
    var s := kernel.ClearChain(c);
    if s == Ok {
      ghost var mid := kernel.Now();
      s := kernel.DeleteChain(c);
      blocked := s == InUse;
      if s == Ok {
        GoodDeleteChain(mid, w, c);
      }
    }
    ok := s == Ok;
  }

  lemma RemovedStep(before: Chains, m: Chains, now: Chains, gone: set<string>, c: string)
    requires Removed(before, m, gone) && Removed(m, now, {c})
    ensures Removed(before, now, gone + {c})
  {
    forall k
      ensures (k in now <==> k in before && k !in gone + {c}) && (k in now && k in before ==> now[k] == before[k])
    {
      assert k in m <==> k in before && k !in gone;
      assert k in now <==> k in m && k !in {c};
    }
  }

  lemma RemovedReferenced(before: Chains, now: Chains, gone: set<string>, c: string)
    requires Removed(before, now, gone)
    ensures Referenced(now, c) ==> Referenced(before, c)
  {
    if k :| k in now && exists r :: r in now[k] && r.target == Jump(c) {
      assert k in before && before[k] == now[k];
    }
  }

  method RemovePodChains(kernel: Kernel, stale: set<string>, ghost w: map<Cond, string>)
    returns (ok: bool, blocked: bool)
    requires Good(kernel.Now(), w) && forall c :: c in stale ==> IsPodChain(c) && c in kernel.chains && c !in w.Values
    modifies kernel
    ensures Good(kernel.Now(), w) && Within(old(kernel.log), kernel.log, GoodStates(w))
    ensures old(kernel.faults) <= kernel.faults
    ensures kernel.sets == old(kernel.sets)
    ensures ok ==> Removed(old(kernel.chains), kernel.chains, stale)
    ensures blocked ==> !ok && exists c :: c in stale && Referenced(old(kernel.chains), c)
    ensures kernel.faults == old(kernel.faults) && (forall c :: c in stale ==> !Referenced(old(kernel.chains), c)) ==>
              ok
  {
    hide Good, Within, IsPodChain, Referenced;
    ok, blocked := true, false;
    WithinSame(kernel.log, GoodStates(w));
    var todo := stale;
    ghost var done := {};
    while todo != {}
      invariant ok && !blocked && done + todo == stale && done !! todo
      invariant Good(kernel.Now(), w) && Within(old(kernel.log), kernel.log, GoodStates(w))
      invariant old(kernel.faults) <= kernel.faults
      invariant kernel.sets == old(kernel.sets)
      invariant Removed(old(kernel.chains), kernel.chains, done)
      decreases todo
    {
      var c :| c in todo;
      ChainKindsDisjoint(c);
      ghost var m, log1 := kernel.chains, kernel.log;
      RemovedReferenced(old(kernel.chains), m, done, c);
      ok, blocked := RemoveChain(kernel, c, w);
      WithinTrans(old(kernel.log), log1, kernel.log, GoodStates(w));
      if !ok {
        return;
      }
      RemovedStep(old(kernel.chains), m, kernel.chains, done, c);
      done, todo := done + {c}, todo - {c};
    }
  }

  ghost predicate NamesNone(rules: seq<Rule>, stale: set<string>) {
    forall r :: r in rules ==> Names(r) !! stale
  }

  /** These chains are gone; pod chains may have lost rules that mention them; the rest is as before. */
  ghost predicate Trimmed(before: Chains, now: Chains, gone: set<string>, pods: set<string>, stale: set<string>) {
    && (forall k :: k in now <==> k in before && k !in gone)
    && (forall k, r :: k in now && k in before && r in now[k] ==> r in before[k])
    && forall k :: k in now && k in before && (k in pods ==> NamesNone(before[k], stale)) ==> now[k] == before[k]
  }

  lemma TrimmedTrans(a: Chains, m: Chains, b: Chains, gone: set<string>, more: set<string>, pods: set<string>,
                     stale: set<string>)
    requires Trimmed(a, m, gone, pods, stale) && Trimmed(m, b, more, pods, stale)
    ensures Trimmed(a, b, gone + more, pods, stale)
  {
    hide Names;
    forall k | k in b
      ensures k in m && k in a
      ensures forall r :: r in b[k] ==> r in a[k]
      ensures (k in pods ==> NamesNone(a[k], stale)) ==> b[k] == a[k]
    {
      assert k in m && k in a;
      assert forall r :: r in b[k] ==> r in m[k];
      assert forall r :: r in m[k] ==> r in a[k];
    }
  }

  lemma TrimmedSame(chains: Chains, pods: set<string>, stale: set<string>)
    ensures Trimmed(chains, chains, {}, pods, stale)
  {
    hide Names;
  }

  /** A rule of a pod chain that mentions a policy chain can go. */
  lemma RemovePolicyMention(st: State, w: map<Cond, string>, q: string, k: nat, p: string, pods: set<string>,
                            stale: set<string>)
    requires Good(st, w) && IsPodChain(q) && q in st.chains && k < |st.chains[q]| && p in Names(st.chains[q][k])
    requires q in pods && p in stale
    ensures var now := st.chains[q := st.chains[q][..k] + st.chains[q][k + 1..]];
            Good(State(now, st.sets), w) && Trimmed(st.chains, now, {}, pods, stale)
  {
    ChainKindsDisjoint(q);
    var r := st.chains[q][k];
    assert r in st.chains[q] && Layered(q, r);
    GoodRemove(st, w, q, k);
    hide Names, Good;
    assert !NamesNone(st.chains[q], stale);
  }

  /** The first mention of `p` is gone from each of these chains, and everything else is as before. */
  ghost predicate FirstDropped(before: Chains, now: Chains, done: set<string>, p: string) {
    && now.Keys == before.Keys
    && forall k :: k in before && k in now ==> now[k] == if k in done then WithoutFirst(before[k], p) else before[k]
  }

  /** Delete the first rule of a pod chain that mentions a policy chain; a failed listing is passed over. */
  method DropFirstMention(kernel: Kernel, q: string, p: string, ghost pods: set<string>, ghost stale: set<string>,
                          ghost w: map<Cond, string>)
    returns (ok: bool)
    requires Good(kernel.Now(), w) && IsPodChain(q) && IsPolicyChain(p) && q in pods && p in stale
    modifies kernel
    ensures Good(kernel.Now(), w) && Within(old(kernel.log), kernel.log, GoodStates(w))
    ensures old(kernel.faults) <= kernel.faults
    ensures kernel.sets == old(kernel.sets)
    ensures Trimmed(old(kernel.chains), kernel.chains, {}, pods, stale)
    ensures kernel.faults == old(kernel.faults) ==> ok && FirstDropped(old(kernel.chains), kernel.chains, {q}, p)
    ensures kernel.chains == old(kernel.chains) || FirstDropped(old(kernel.chains), kernel.chains, {q}, p)
  {
    hide Good, Trimmed, Names;
    ok := true;
    ChainKindsDisjoint(q);
    TrimmedSame(kernel.chains, pods, stale);
    var s, lines := kernel.List(q);
    var i := 0;
    while i < |lines| && !Mentions(lines[i], p)
      invariant 0 <= i <= |lines| && forall j :: 0 <= j < i ==> !Mentions(lines[j], p)
    {
      i := i + 1;
    }
    if s == Ok {
      assert i > 0;
      assert forall j :: 0 <= j < i - 1 ==> lines[j + 1] == Spec(kernel.chains[q][j]) && !Mentions(lines[j + 1], p);
      WithoutFirstAt(kernel.chains[q], p, i - 1);
    }
    if i < |lines| {
      assert lines[i] == Spec(kernel.chains[q][i - 1]);
      RemovePolicyMention(kernel.Now(), w, q, i - 1, p, pods, stale);
      s := kernel.DeleteRule(q, i);
      ok := s == Ok;
    }
  }

  lemma FirstDroppedStep(a: Chains, m: Chains, b: Chains, done: set<string>, q: string, p: string)
    requires FirstDropped(a, m, done, p) && FirstDropped(m, b, {q}, p) && q !in done
    ensures FirstDropped(a, b, done + {q}, p)
  {
    hide WithoutFirst;
  }

  lemma NothingDropped(chains: Chains, p: string)
    ensures FirstDropped(chains, chains, {}, p)
  {
  }

  /** Drop the first mention of one policy chain from each active pod chain, in any order. */
  method DropMentions(kernel: Kernel, p: string, pods: set<string>, ghost stale: set<string>,
                      ghost w: map<Cond, string>) returns (ok: bool)
    requires Good(kernel.Now(), w) && IsPolicyChain(p) && p in stale && forall q :: q in pods ==> IsPodChain(q)
    modifies kernel
    ensures Good(kernel.Now(), w) && Within(old(kernel.log), kernel.log, GoodStates(w))
    ensures old(kernel.faults) <= kernel.faults
    ensures kernel.sets == old(kernel.sets)
    ensures Trimmed(old(kernel.chains), kernel.chains, {}, pods, stale)
    ensures kernel.faults == old(kernel.faults) ==> ok && FirstDropped(old(kernel.chains), kernel.chains, pods, p)
  {
    hide Good, Within, Trimmed, IsPodChain, IsPolicyChain, FirstDropped;
    ok := true;
    TrimmedSame(kernel.chains, pods, stale);
    WithinSame(kernel.log, GoodStates(w));
    NothingDropped(kernel.chains, p);
    var todo := pods;
    ghost var done: set<string> := {};
    while ok && todo != {}
      invariant done + todo == pods && done !! todo
      invariant Good(kernel.Now(), w) && Within(old(kernel.log), kernel.log, GoodStates(w))
      invariant old(kernel.faults) <= kernel.faults
      invariant kernel.sets == old(kernel.sets)
      invariant Trimmed(old(kernel.chains), kernel.chains, {}, pods, stale)
      invariant kernel.faults == old(kernel.faults) ==> ok && FirstDropped(old(kernel.chains), kernel.chains, done, p)
      decreases todo
    {
      var q :| q in todo;
      ghost var m, log1 := kernel.chains, kernel.log;
      ok := DropFirstMention(kernel, q, p, pods, stale, w);
      WithinTrans(old(kernel.log), log1, kernel.log, GoodStates(w));
      ghost var none: set<string> := {};
      TrimmedTrans(old(kernel.chains), m, kernel.chains, none, none, pods, stale);
      assert none + none == none;
      if kernel.faults == old(kernel.faults) {
        FirstDroppedStep(old(kernel.chains), m, kernel.chains, done, q, p);
      }
      done, todo := done + {q}, todo - {q};
    }
  }

  lemma RemovedTrimmed(before: Chains, now: Chains, c: string, pods: set<string>, stale: set<string>)
    requires Removed(before, now, {c})
    ensures Trimmed(before, now, {c}, pods, stale)
  {
    hide Names;
  }

  /** Only pod chains refer to a policy chain, so one that is still referenced was mentioned in a pod chain. */
  lemma MentionedByPod(st: State, now: Chains, gone: set<string>, p: string, pods: set<string>, stale: set<string>)
    requires Sound(st) && Trimmed(st.chains, now, gone, pods, stale) && IsPolicyChain(p) && p in stale
    requires Referenced(now, p)
    ensures exists k :: k in st.chains && IsPodChain(k) && !NamesNone(st.chains[k], stale)
  {
    var k :| k in now && exists r :: r in now[k] && r.target == Jump(p);
    var r :| r in now[k] && r.target == Jump(p);
    assert k in st.chains && r in st.chains[k];
    assert Layered(k, r);
    assert p in Names(r);
  }

  ghost predicate NoMention(rules: seq<Rule>, p: string) {
    forall r :: r in rules ==> p !in Names(r)
  }

  /** Pod chains mention these policy chains at most once each, and only active ones do at all. */
  ghost predicate Clearable(chains: Chains, pods: set<string>, stale: set<string>) {
    forall k, p :: k in chains && IsPodChain(k) && p in stale ==>
      if k in pods then AtMostOne(chains[k], p) else NoMention(chains[k], p)
  }

  lemma ClearableStep(a: Chains, m: Chains, b: Chains, p: string, pods: set<string>, stale: set<string>,
                      todo: set<string>)
    requires Clearable(a, pods, todo) && FirstDropped(a, m, pods, p) && Removed(m, b, {p}) && p in todo && todo <= stale
    ensures Clearable(b, pods, todo - {p})
  {
    hide Names, WithoutFirst, IsPodChain, AtMostOne;
    forall k, x | k in b && IsPodChain(k) && x in todo - {p}
      ensures if k in pods then AtMostOne(b[k], x) else NoMention(b[k], x)
    {
      assert k in m && k in a && b[k] == m[k];
      WithoutFirstMentions(a[k], p, x);
    }
  }

  /**
   With its first mention dropped everywhere, a policy chain that was mentioned at most once is
   referenced by nothing.
   */
  lemma DroppedUnreferenced(st: State, a: Chains, p: string, pods: set<string>, todo: set<string>)
    requires Sound(st) && Clearable(a, pods, todo) && FirstDropped(a, st.chains, pods, p) && p in todo
    requires IsPolicyChain(p)
    ensures !Referenced(st.chains, p)
  {
    hide WithoutFirst, IsPodChain, IsPolicyChain;
    forall k, r | k in st.chains && r in st.chains[k]
      ensures r.target != Jump(p)
    {
      assert Layered(k, r);
      if r.target == Jump(p) {
        assert IsPodChain(k) && k in a && p in Names(r);
        WithoutFirstMentions(a[k], p, p);
        assert false;
      }
    }
  }

  lemma TrimmedKeeps(before: Chains, now: Chains, gone: set<string>, pods: set<string>, stale: set<string>, k: string)
    requires Trimmed(before, now, gone, pods, stale)
    ensures k in now <==> k in before && k !in gone
  {
  }

  lemma GoodSound(st: State, w: map<Cond, string>)
    requires Good(st, w)
    ensures Sound(st)
  {
  }

  /** Remove every stale policy chain after dropping its mentions. */
  method RemovePolicyChains(kernel: Kernel, stale: set<string>, pods: set<string>,
                            ghost w: map<Cond, string>) returns (ok: bool, blocked: bool)
    requires Good(kernel.Now(), w) && forall c :: c in stale ==> IsPolicyChain(c) && c in kernel.chains
    requires w.Values <= pods && forall q :: q in pods ==> IsPodChain(q)
    modifies kernel
    ensures Good(kernel.Now(), w) && Within(old(kernel.log), kernel.log, GoodStates(w))
    ensures old(kernel.faults) <= kernel.faults
    ensures kernel.sets == old(kernel.sets)
    ensures ok ==> Trimmed(old(kernel.chains), kernel.chains, stale, pods, stale)
    ensures kernel.faults == old(kernel.faults) && Clearable(old(kernel.chains), pods, stale) ==> ok
    ensures blocked ==>
              !ok && exists k :: k in old(kernel.chains) && IsPodChain(k) && !NamesNone(old(kernel.chains)[k], stale)
  {
    hide Good, Within, IsPodChain, IsPolicyChain, Referenced, Trimmed, Removed, Clearable, FirstDropped;
    ok, blocked := true, false;
    WithinSame(kernel.log, GoodStates(w));
    TrimmedSame(kernel.chains, pods, stale);
    var todo := stale;
    ghost var done, before := {}, kernel.Now();
    while todo != {}
      invariant ok && !blocked && done + todo == stale && done !! todo
      invariant Good(kernel.Now(), w) && Within(old(kernel.log), kernel.log, GoodStates(w))
      invariant old(kernel.faults) <= kernel.faults
      invariant kernel.sets == old(kernel.sets)
      invariant Trimmed(before.chains, kernel.chains, done, pods, stale)
      invariant kernel.faults == old(kernel.faults) && Clearable(before.chains, pods, stale) ==>
                  Clearable(kernel.chains, pods, todo)
      decreases todo
    {
      var p :| p in todo;
      ChainKindsDisjoint(p);
      ghost var m, log1 := kernel.chains, kernel.log;
      ok := DropMentions(kernel, p, pods, stale, w);
      WithinTrans(old(kernel.log), log1, kernel.log, GoodStates(w));
      TrimmedTrans(before.chains, m, kernel.chains, done, {}, pods, stale);
      assert done + {} == done;
      if !ok {
        return;
      }
      TrimmedKeeps(before.chains, kernel.chains, done, pods, stale, p);
      ghost var m2, log2 := kernel.chains, kernel.log;
      if kernel.faults == old(kernel.faults) && Clearable(m, pods, todo) {
        GoodSound(kernel.Now(), w);
        DroppedUnreferenced(kernel.Now(), m, p, pods, todo);
      }
      ok, blocked := RemoveChain(kernel, p, w);
      WithinTrans(old(kernel.log), log2, kernel.log, GoodStates(w));
      if blocked {
        GoodSound(before, w);
        MentionedByPod(before, m2, done, p, pods, stale);
      }
      if !ok {
        return;
      }
      if kernel.faults == old(kernel.faults) && Clearable(m, pods, todo) {
        ClearableStep(m, m2, kernel.chains, p, pods, stale, todo);
      }
      RemovedTrimmed(m2, kernel.chains, p, pods, stale);
      TrimmedTrans(before.chains, m2, kernel.chains, done, {p}, pods, stale);
      done, todo := done + {p}, todo - {p};
    }
  }

  /** Destroy the stale sets, in any order; `blocked` when the kernel refuses because a set is referenced. */
  method DestroySets(kernel: Kernel, stale: set<string>, ghost w: map<Cond, string>) returns (ok: bool, blocked: bool)
    requires Good(kernel.Now(), w)
    modifies kernel
    ensures Good(kernel.Now(), w) && Within(old(kernel.log), kernel.log, GoodStates(w))
    ensures old(kernel.faults) <= kernel.faults
    ensures kernel.chains == old(kernel.chains)
    ensures forall n :: n in old(kernel.sets) && n !in stale ==>
              n in kernel.sets && kernel.sets[n] == old(kernel.sets)[n]
    ensures forall n :: n in kernel.sets ==> n in old(kernel.sets)
    ensures ok ==> forall n :: n in stale ==> n !in kernel.sets && !SetReferenced(kernel.chains, n)
    ensures blocked ==> !ok && exists n :: n in stale && SetReferenced(kernel.chains, n)
    ensures kernel.faults == old(kernel.faults) ==>
              (forall n :: n in stale ==> n in old(kernel.sets) && !SetReferenced(kernel.chains, n)) ==> ok
  {
    hide Good, Within, SetReferenced;
    ok, blocked := true, false;
    WithinSame(kernel.log, GoodStates(w));
    var todo := stale;
    while todo != {}
      invariant ok && !blocked && todo <= stale
      invariant Good(kernel.Now(), w) && Within(old(kernel.log), kernel.log, GoodStates(w))
      invariant old(kernel.faults) <= kernel.faults
      invariant kernel.chains == old(kernel.chains)
      invariant forall n :: n in old(kernel.sets) && n !in stale ==>
                  n in kernel.sets && kernel.sets[n] == old(kernel.sets)[n]
      invariant forall n :: n in kernel.sets ==> n in old(kernel.sets)
      invariant forall n :: n in stale && n !in todo ==> n !in kernel.sets && !SetReferenced(kernel.chains, n)
      invariant forall n :: n in todo && n in old(kernel.sets) ==> n in kernel.sets
      decreases todo
    {
      var n :| n in todo;
      ghost var m, log1 := kernel.Now(), kernel.log;
      var s := kernel.DestroySet(n);
      if s == Ok {
        GoodDestroy(m, w, n);
      }
      WithinOne(old(kernel.log), log1, kernel.log, GoodStates(w));
      ok, blocked := s == Ok, s == InUse;
      if !ok {
        return;
      }
      todo := todo - {n};
    }
  }

  function StalePods(chains: Chains, pods: set<string>): set<string> {
    set c | c in chains.Keys && IsPodChain(c) && c !in pods
  }

  function StalePolicies(chains: Chains, policies: set<string>): set<string> {
    set c | c in chains.Keys && IsPolicyChain(c) && c !in policies
  }

  function StaleSets(sets: Sets, active: set<string>): set<string> {
    set n | n in sets.Keys && IsPolicySet(n) && n !in active
  }

  ghost predicate OnlyPolicies(rules: seq<Rule>, policies: set<string>) {
    forall r, n :: r in rules && n in Names(r) && IsPolicyChain(n) ==> n in policies
  }

  /** The active chains lead only to active policy chains and use only active sets. */
  ghost predicate ActiveClosed(chains: Chains, policies: set<string>, pods: set<string>, active: set<string>) {
    && (forall k :: k in chains && k in pods ==> OnlyPolicies(chains[k], policies))
    && (forall k, r, n :: k in chains && k in policies && r in chains[k] && n in SetsOf(r) && IsPolicySet(n) ==>
      n in active)
  }

  ghost predicate NoneStale(b: Chains, policies: set<string>, pods: set<string>) {
    forall k :: k in b ==> (IsPodChain(k) ==> k in pods) && (IsPolicyChain(k) ==> k in policies)
  }

  /** Exactly the rules that mention no stale pod chain are left in the base chains, in their order. */
  ghost predicate BaseCleaned(a: Chains, b: Chains, pods: set<string>) {
    && FORWARD in a && FORWARD in b && b[FORWARD] == Clear(a[FORWARD], StalePods(a, pods))
    && OUTPUT in a && OUTPUT in b && b[OUTPUT] == Clear(a[OUTPUT], StalePods(a, pods))
  }

  /** A chain that is not the agent's and that it adds nothing to. */
  predicate IsForeign(k: string) {
    !IsPodChain(k) && !IsPolicyChain(k) && k != FORWARD && k != OUTPUT
  }

  /** What a finished cleanup leaves of the chains. */
  ghost predicate ChainsCleaned(a: Chains, b: Chains, policies: set<string>, pods: set<string>, listed: bool) {
    && (!listed ==> b == a)
    && (forall k :: k in a && k in policies ==> k in b && b[k] == a[k])
    && (forall k :: k in a && k in pods && OnlyPolicies(a[k], policies) ==> k in b && b[k] == a[k])
    && (listed ==> NoneStale(b, policies, pods) && BaseCleaned(a, b, pods))
    && (forall k :: k in a && IsForeign(k) ==> k in b && b[k] == a[k])
    && forall k :: k in b ==> k in a && forall r :: r in b[k] ==> r in a[k]
  }

  /** What a finished cleanup leaves of the sets. */
  ghost predicate SetsCleaned(a: Sets, b: Sets, active: set<string>) {
    && (forall n :: n in b ==> n in a && n !in StaleSets(a, active))
    && forall n :: n in a && n !in StaleSets(a, active) ==> n in b && b[n] == a[n]
  }

  lemma BaseAreNeither()
    ensures !IsPodChain(FORWARD) && !IsPolicyChain(FORWARD) && !IsPodChain(OUTPUT) && !IsPolicyChain(OUTPUT)
    ensures FORWARD != OUTPUT
  {
    ChainKindsDisjoint(FORWARD);
    ChainKindsDisjoint(OUTPUT);
  }

  lemma ChainsCleanedOf(a: Chains, m1: Chains, m2: Chains, b: Chains, policies: set<string>, pods: set<string>)
    requires Unlinked(a, m1, StalePods(a, pods)) && Removed(m1, m2, StalePods(a, pods))
    requires Trimmed(m2, b, StalePolicies(a, policies), pods, StalePolicies(a, policies))
    requires (forall q :: q in pods ==> IsPodChain(q)) && (forall p :: p in policies ==> IsPolicyChain(p))
    ensures ChainsCleaned(a, b, policies, pods, true)
  {
    hide Names, Clear, IsPodChain, IsPolicyChain;
    var gone, left := StalePods(a, pods), StalePolicies(a, policies);
    BaseAreNeither();
    ClearMembers(a[FORWARD], gone);
    ClearMembers(a[OUTPUT], gone);
    forall k | k in a && (k in policies || k in pods)
      ensures k !in gone && k !in left && k in m2 && m2[k] == a[k] && k in b
    {
      ChainKindsDisjoint(k);
    }
    forall k | k in a && k in pods && OnlyPolicies(a[k], policies)
      ensures NamesNone(a[k], left)
    {
    }
    forall k | k in policies && k in pods
      ensures false
    {
      ChainKindsDisjoint(k);
    }
    forall k | k in b
      ensures k in a && (forall r :: r in b[k] ==> r in a[k]) && k !in gone && k !in left
    {
      assert k in m2 && k in m1;
    }
  }

  /** Once unlinked, a pod chain is referenced by nothing. */
  lemma UnlinkedUnreferenced(st: State, a: Chains, stale: set<string>, c: string)
    requires Sound(st) && Unlinked(a, st.chains, stale) && c in stale && IsPodChain(c)
    ensures !Referenced(st.chains, c)
  {
    BaseAreNeither();
    ClearMembers(a[FORWARD], stale);
    ClearMembers(a[OUTPUT], stale);
    forall k, r | k in st.chains && r in st.chains[k]
      ensures r.target != Jump(c)
    {
      assert Layered(k, r);
      assert r.target == Jump(c) ==> c in Names(r);
    }
  }

  lemma PolicyBlocked(a: Chains, m1: Chains, m2: Chains, policies: set<string>, pods: set<string>, active: set<string>,
                      k: string)
    requires Unlinked(a, m1, StalePods(a, pods)) && Removed(m1, m2, StalePods(a, pods))
    requires k in m2 && IsPodChain(k) && !NamesNone(m2[k], StalePolicies(a, policies))
    ensures !ActiveClosed(a, policies, pods, active)
  {
    hide Names, Clear;
    BaseAreNeither();
    assert k in m1 && k in a && a[k] == m2[k] && k in pods;
    var r :| r in a[k] && !(Names(r) !! StalePolicies(a, policies));
    var n :| n in Names(r) && n in StalePolicies(a, policies);
    assert !OnlyPolicies(a[k], policies);
  }

  lemma SetUnreferenced(a: Chains, st: State, policies: set<string>, pods: set<string>, active: set<string>, n: string)
    requires Sound(st) && ChainsCleaned(a, st.chains, policies, pods, true)
    requires IsPolicySet(n) && n !in active && ActiveClosed(a, policies, pods, active)
    ensures !SetReferenced(st.chains, n)
  {
    forall k, r | k in st.chains && r in st.chains[k]
      ensures n !in SetsOf(r)
    {
      assert Layered(k, r);
      assert k in a && r in a[k];
    }
  }

  lemma NoneIsAtMostOne(rules: seq<Rule>, p: string)
    requires NoMention(rules, p)
    ensures AtMostOne(rules, p)
  {
    hide Names;
  }

  /** Closed active chains mention nothing stale. */
  lemma ClosedClearable(a: Chains, m1: Chains, m2: Chains, policies: set<string>, pods: set<string>,
                        active: set<string>)
    requires Unlinked(a, m1, StalePods(a, pods)) && Removed(m1, m2, StalePods(a, pods))
    requires ActiveClosed(a, policies, pods, active)
    ensures Clearable(m2, pods, StalePolicies(a, policies))
  {
    hide Names, Clear, AtMostOne;
    BaseAreNeither();
    forall k, p | k in m2 && IsPodChain(k) && p in StalePolicies(a, policies)
      ensures k in pods && AtMostOne(m2[k], p)
    {
      assert k in m1 && k in a && a[k] == m2[k] && k in pods;
      assert OnlyPolicies(a[k], policies);
      assert forall r :: r in a[k] ==> p !in Names(r);
      NoneIsAtMostOne(a[k], p);
    }
  }

  lemma UnlinkedKeys(a: Chains, b: Chains, stale: set<string>)
    requires Unlinked(a, b, stale)
    ensures b.Keys == a.Keys
  {
  }

  lemma StaleStay(a: Chains, m1: Chains, m2: Chains, policies: set<string>, pods: set<string>)
    requires Unlinked(a, m1, StalePods(a, pods)) && Removed(m1, m2, StalePods(a, pods))
    ensures forall c :: c in StalePolicies(a, policies) ==> c in m2
  {
    hide IsPodChain, IsPolicyChain;
    forall c | c in StalePolicies(a, policies)
      ensures c in m2
    {
      ChainKindsDisjoint(c);
      assert c in m1;
    }
  }

  /** Remove the stale chains. */
  method CleanupChains(kernel: Kernel, stalePods: set<string>, stalePolicies: set<string>, policies: set<string>,
                       pods: set<string>, ghost active: set<string>, ghost w: map<Cond, string>)
    returns (ok: bool, blocked: bool)
    requires Good(kernel.Now(), w) && w.Values <= pods
    requires (forall q :: q in pods ==> IsPodChain(q)) && (forall p :: p in policies ==> IsPolicyChain(p))
    requires stalePods == StalePods(kernel.chains, pods) && stalePolicies == StalePolicies(kernel.chains, policies)
    modifies kernel
    ensures Good(kernel.Now(), w) && Within(old(kernel.log), kernel.log, GoodStates(w))
    ensures old(kernel.faults) <= kernel.faults
    ensures kernel.sets == old(kernel.sets)
    ensures ok ==> ChainsCleaned(old(kernel.chains), kernel.chains, policies, pods, true)
    ensures blocked ==> !ok && !ActiveClosed(old(kernel.chains), policies, pods, active)
    ensures kernel.faults == old(kernel.faults) && ActiveClosed(old(kernel.chains), policies, pods, active) ==> ok
  {
    hide Good, Within, IsPodChain, IsPolicyChain, Unlinked, Removed, Trimmed, ChainsCleaned, Referenced, ActiveClosed,
         NamesNone, Clearable;
    blocked := false;
    ghost var a := kernel.chains;
    ok := UnlinkPodChains(kernel, stalePods, w);
    if !ok {
      return;
    }
    ghost var m1, log1 := kernel.Now(), kernel.log;
    GoodSound(m1, w);
    UnlinkedKeys(a, m1.chains, stalePods);
    forall c | c in stalePods
      ensures !Referenced(m1.chains, c)
    {
      UnlinkedUnreferenced(m1, a, stalePods, c);
    }
    ok, blocked := RemovePodChains(kernel, stalePods, w);
    WithinTrans(old(kernel.log), log1, kernel.log, GoodStates(w));
    if !ok {
      return;
    }
    ghost var m2, log2 := kernel.chains, kernel.log;
    StaleStay(a, m1.chains, m2, policies, pods);
    if ActiveClosed(a, policies, pods, active) {
      ClosedClearable(a, m1.chains, m2, policies, pods, active);
    }
    ok, blocked := RemovePolicyChains(kernel, stalePolicies, pods, w);
    WithinTrans(old(kernel.log), log2, kernel.log, GoodStates(w));
    if blocked {
      ghost var k :| k in m2 && IsPodChain(k) && !NamesNone(m2[k], stalePolicies);
      PolicyBlocked(a, m1.chains, m2, policies, pods, active, k);
    }
    if ok {
      ChainsCleanedOf(a, m1.chains, m2, kernel.chains, policies, pods);
    }
  }

  /**
   `saved` when the sets could be listed, without which nothing is done, and `listed` when the chains could
   be; a failed listing of the chains is taken for an empty one.
   */
  method CleanupStaleRules(kernel: Kernel, policies: set<string>, pods: set<string>, active: set<string>,
                           ghost w: map<Cond, string>)
    returns (ok: bool, blocked: bool, listed: bool, saved: bool)
    requires Good(kernel.Now(), w) && w.Values <= pods
    requires (forall q :: q in pods ==> IsPodChain(q)) && (forall p :: p in policies ==> IsPolicyChain(p))
    modifies kernel
    ensures Good(kernel.Now(), w) && Within(old(kernel.log), kernel.log, GoodStates(w))
    ensures old(kernel.faults) <= kernel.faults
    ensures ok ==> ChainsCleaned(old(kernel.chains), kernel.chains, policies, pods, listed)
    ensures ok ==> SetsCleaned(old(kernel.sets), kernel.sets, active)
    ensures ok ==> forall n :: n in StaleSets(old(kernel.sets), active) ==> !SetReferenced(kernel.chains, n)
    ensures blocked && listed ==> !ActiveClosed(old(kernel.chains), policies, pods, active)
    ensures saved && !listed && kernel.faults == old(kernel.faults) + 1 ==>
              (ok <==> forall n :: n in StaleSets(old(kernel.sets), active) ==> !SetReferenced(old(kernel.chains), n))
    ensures kernel.faults == old(kernel.faults) ==>
              listed && (ActiveClosed(old(kernel.chains), policies, pods, active) ==> ok)
  {
    hide Good, Within, IsPodChain, IsPolicyChain, IsPolicySet, ActiveClosed, SetReferenced;
    ok, blocked, listed, saved := false, false, false, false;
    WithinSame(kernel.log, GoodStates(w));
    var s, sets := kernel.SaveSets();
    if s != Ok {
      return;
    }
    saved := true;
    ghost var a := kernel.Now();
    var t, names := kernel.ListChains();
    listed := t == Ok;
    var stalePolicies := set c | c in names && IsPolicyChain(c) && c !in policies;
    var stalePods := set c | c in names && IsPodChain(c) && c !in pods;
    var staleSets := set n | n in sets && IsPolicySet(n) && n !in active;
    assert staleSets == StaleSets(a.sets, active);
    ok := true;
    if listed {
      ok, blocked := CleanupChains(kernel, stalePods, stalePolicies, policies, pods, active, w);
    } else {
      assert stalePolicies == {} && stalePods == {};
    }
    if !ok {
      return;
    }
    assert ChainsCleaned(a.chains, kernel.chains, policies, pods, listed);
    hide ChainsCleaned;
    ghost var log1 := kernel.log;
    GoodSound(kernel.Now(), w);
    if listed && ActiveClosed(a.chains, policies, pods, active) {
      forall n | n in staleSets
        ensures !SetReferenced(kernel.chains, n)
      {
        SetUnreferenced(a.chains, kernel.Now(), policies, pods, active, n);
      }
    }
    ok, blocked := DestroySets(kernel, staleSets, w);
    WithinTrans(old(kernel.log), log1, kernel.log, GoodStates(w));
  }

  // A stale policy chain that refers to a stale set.

  const STALE_CHAIN := POLICY_PREFIX + "X"
  const STALE_SET := SOURCE_PREFIX + "X"

  function StaleState(): State {
    State(map[FORWARD := [], OUTPUT := [], STALE_CHAIN := [Rule(StatefulPod, [FromSet(STALE_SET)], Accept)]],
          map[STALE_SET := HashIp({})])
  }

  /** With such a chain in place, cleanup cannot finish after a failed listing, however well everything else works. */
  lemma FailedListingStuck()
    ensures Good(StaleState(), map[])
    ensures STALE_SET in StaleSets(StaleState().sets, {}) && SetReferenced(StaleState().chains, STALE_SET)
  {
    var st, r := StaleState(), Rule(StatefulPod, [FromSet(STALE_SET)], Accept);
    BaseAreNeither();
    ChainKindsDisjoint(STALE_CHAIN);
    assert IsPolicyChain(STALE_CHAIN) && IsPolicySet(STALE_SET);
    hide IsPodChain, IsPolicyChain, IsPolicySet;
    assert FromSet(STALE_SET) in r.conds && SetsOf(r) == {STALE_SET};
    assert r in st.chains[STALE_CHAIN];
    assert Resolvable(st, r) && Layered(STALE_CHAIN, r);
  }
}
