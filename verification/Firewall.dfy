/**
 What the agent keeps true of the filter table at every command: references resolve, the layers
 of chains are respected, and guarded pods stay guarded.
 */
module Firewall {
  import opened Netfilter
  import opened Kernel
  import opened Ipset
  import opened Naming

  /** The closing rule of a pod chain: an unconditional REJECT. */
  predicate Final(r: Rule) {
    r.target == Reject && r.conds == []
  }

  /** After the first closing rule there are only closing rules. */
  ghost predicate ClosesLast(rules: seq<Rule>) {
    forall i, j :: 0 <= i < j < |rules| && Final(rules[i]) ==> Final(rules[j])
  }

  /**
   Only the base chains jump to pod chains, only pod chains to policy chains, and only policy chains
   use policy sets. A jump mentions no chain but its target, and a closing rule mentions none.
   */
  predicate Layered(k: string, r: Rule) {
    && (r.target.Jump? && IsPodChain(r.target.chain) ==> k == FORWARD || k == OUTPUT)
    && (r.target.Jump? && IsPolicyChain(r.target.chain) ==> IsPodChain(k))
    && ((exists n :: n in SetsOf(r) && IsPolicySet(n)) ==> IsPolicyChain(k))
    && (r.target.Jump? && (IsPodChain(r.target.chain) || IsPolicyChain(r.target.chain)) ==>
      Names(r) == {r.target.chain})
    && (IsPodChain(k) && Final(r) ==> Names(r) == {})
  }

  ghost predicate Sound(st: State) {
    && FORWARD in st.chains && OUTPUT in st.chains
    && (forall k, r :: k in st.chains && r in st.chains[k] ==> Resolvable(st, r) && Layered(k, r))
    && forall k :: k in st.chains && IsPodChain(k) ==> ClosesLast(st.chains[k])
  }

  /** FORWARD sends all packets of this kind, to or from an address, into the pod chain `c`, and `c` ends in REJECT. */
  ghost predicate Guard(st: State, key: Cond, c: string) {
    && IsPodChain(c) && c in st.chains && st.chains[c] != [] && Final(st.chains[c][|st.chains[c]| - 1])
    && FORWARD in st.chains
    && exists r :: r in st.chains[FORWARD] && r.conds == [key] && r.target == Jump(c)
  }

  ghost predicate Protected(st: State, key: Cond) {
    exists c :: Guard(st, key, c)
  }

  ghost predicate Guarded(st: State, w: map<Cond, string>) {
    forall key :: key in w ==> Guard(st, key, w[key])
  }

  ghost predicate Good(st: State, w: map<Cond, string>) {
    Sound(st) && Guarded(st, w)
  }

  /** All states logged since `from` belong to `inv`. */
  ghost predicate LogIn(log: seq<State>, from: nat, inv: iset<State>) {
    forall i :: from <= i < |log| ==> log[i] in inv
  }

  /** Protection means that FORWARD decides every packet of that kind. */
  lemma ProtectedDecides(st: State, key: Cond, p: Packet, depth: nat)
    requires Protected(st, key) && Holds(key, p, st.sets) && depth > 0
    ensures Run(st.chains[FORWARD], st, p, depth) != Returned
  {
    var c :| Guard(st, key, c);
    var rules := st.chains[c];
    NeverReturns(rules, |rules| - 1, st, p, depth - 1);
    var r :| r in st.chains[FORWARD] && r.conds == [key] && r.target == Jump(c);
    var k :| 0 <= k < |st.chains[FORWARD]| && st.chains[FORWARD][k] == r;
    NeverReturns(st.chains[FORWARD], k, st, p, depth);
  }

  // Preservation, command by command.

  lemma SoundUpdate(st: State, c: string, rules: seq<Rule>)
    requires Sound(st)
    requires forall r :: r in rules ==> (c in st.chains && r in st.chains[c]) || (Resolvable(st, r) && Layered(c, r))
    requires IsPodChain(c) ==> ClosesLast(rules)
    ensures Sound(State(st.chains[c := rules], st.sets))
  {
    var now := State(st.chains[c := rules], st.sets);
    forall k, r | k in now.chains && r in now.chains[k]
      ensures Resolvable(now, r) && Layered(k, r)
    {
      if k == c {
        assert Resolvable(st, r) && Layered(c, r);
      } else {
        assert Resolvable(st, r) && Layered(k, r);
      }
    }
    forall k | k in now.chains && IsPodChain(k)
      ensures ClosesLast(now.chains[k])
    {
      assert k != c ==> ClosesLast(st.chains[k]);
    }
  }

  lemma GoodNewChain(st: State, w: map<Cond, string>, c: string)
    requires Good(st, w) && c !in st.chains
    ensures Good(State(st.chains[c := []], st.sets), w)
  {
    var now := State(st.chains[c := []], st.sets);
    SoundUpdate(st, c, []);
    assert forall key :: key in w ==> Guard(st, key, w[key]) ==> Guard(now, key, w[key]);
  }

  lemma ClosesLastFront(r: Rule, rules: seq<Rule>)
    requires ClosesLast(rules) && !Final(r)
    ensures ClosesLast([r] + rules)
  {
    var all := [r] + rules;
    forall i, j | 0 <= i < j < |all| && Final(all[i])
      ensures Final(all[j])
    {
      assert Final(rules[i - 1]);
    }
  }

  lemma GoodFront(st: State, w: map<Cond, string>, c: string, r: Rule)
    requires Good(st, w) && c in st.chains && Resolvable(st, r) && Layered(c, r) && !Final(r)
    ensures Good(State(st.chains[c := [r] + st.chains[c]], st.sets), w)
  {
    var now := State(st.chains[c := [r] + st.chains[c]], st.sets);
    if IsPodChain(c) {
      ClosesLastFront(r, st.chains[c]);
    }
    SoundUpdate(st, c, [r] + st.chains[c]);
    forall key | key in w
      ensures Guard(now, key, w[key])
    {
      assert Guard(st, key, w[key]);
      assert forall x :: x in st.chains[FORWARD] ==> x in now.chains[FORWARD];
    }
  }

  lemma GoodBack(st: State, w: map<Cond, string>, c: string, r: Rule)
    requires Good(st, w) && c in st.chains && Resolvable(st, r) && Layered(c, r)
    requires IsPodChain(c) ==> Final(r)
    ensures Good(State(st.chains[c := st.chains[c] + [r]], st.sets), w)
  {
    var now := State(st.chains[c := st.chains[c] + [r]], st.sets);
    assert IsPodChain(c) ==> ClosesLast(st.chains[c]);
    SoundUpdate(st, c, st.chains[c] + [r]);
    forall key | key in w
      ensures Guard(now, key, w[key])
    {
      assert Guard(st, key, w[key]);
      assert forall x :: x in st.chains[FORWARD] ==> x in now.chains[FORWARD];
    }
  }

  lemma GoodCreate(st: State, w: map<Cond, string>, sets: Sets)
    requires Good(st, w) && st.sets.Keys <= sets.Keys
    ensures Good(State(st.chains, sets), w)
  {
    var now := State(st.chains, sets);
    forall k, r | k in now.chains && r in now.chains[k]
      ensures Resolvable(now, r)
    {
      assert Resolvable(st, r);
    }
    assert forall key :: key in w ==> Guard(st, key, w[key]) ==> Guard(now, key, w[key]);
  }

  lemma GoodMidRefresh(st: State, w: map<Cond, string>, now: State, name: string, temp: string, filled: IpSet)
    requires Good(st, w) && MidRefresh(st, now, name, temp, filled)
    ensures Good(now, w)
  {
    forall k, r | k in now.chains && r in now.chains[k]
      ensures Resolvable(now, r)
    {
      assert Resolvable(st, r);
      forall n | n in SetsOf(r)
        ensures n in now.sets
      {
        assert n in st.sets;
        if n == temp {
          assert SetReferenced(st.chains, temp);
        } else if n != name {
          assert n in st.sets - {name, temp};
        }
      }
    }
    assert forall key :: key in w ==> Guard(st, key, w[key]) ==> Guard(now, key, w[key]);
  }

  lemma GoodDestroy(st: State, w: map<Cond, string>, n: string)
    requires Good(st, w) && !SetReferenced(st.chains, n)
    ensures Good(State(st.chains, st.sets - {n}), w)
  {
    var now := State(st.chains, st.sets - {n});
    forall k, r | k in now.chains && r in now.chains[k]
      ensures Resolvable(now, r)
    {
      assert Resolvable(st, r);
    }
    assert forall key :: key in w ==> Guard(st, key, w[key]) ==> Guard(now, key, w[key]);
  }

  /** Emptying a chain that guards nothing. */
  lemma GoodClear(st: State, w: map<Cond, string>, c: string)
    requires Good(st, w) && c != FORWARD && c !in w.Values
    ensures Good(State(st.chains[c := []], st.sets), w)
  {
    var now := State(st.chains[c := []], st.sets);
    SoundUpdate(st, c, []);
    forall key | key in w
      ensures Guard(now, key, w[key])
    {
      assert Guard(st, key, w[key]) && w[key] in w.Values;
    }
  }

  lemma ClosesLastRemove(rules: seq<Rule>, i: nat)
    requires ClosesLast(rules) && i < |rules| && !Final(rules[i])
    ensures ClosesLast(rules[..i] + rules[i + 1..])
  {
    var left := rules[..i] + rules[i + 1..];
    forall x, y | 0 <= x < y < |left| && Final(left[x])
      ensures Final(left[y])
    {
      var x', y' := if x < i then x else x + 1, if y < i then y else y + 1;
      assert left[x] == rules[x'] && left[y] == rules[y'];
    }
  }

  lemma GuardRemove(st: State, now: State, key: Cond, g: string, c: string, i: nat)
    requires Guard(st, key, g) && c in st.chains && i < |st.chains[c]|
    requires now == State(st.chains[c := st.chains[c][..i] + st.chains[c][i + 1..]], st.sets)
    requires IsPodChain(c) ==> !Final(st.chains[c][i])
    requires c == FORWARD && st.chains[c][i].target.Jump? ==> st.chains[c][i].target.chain != g
    ensures Guard(now, key, g)
  {
    ChainKindsDisjoint(g);
    var r :| r in st.chains[FORWARD] && r.conds == [key] && r.target == Jump(g);
    if c == FORWARD {
      var k :| 0 <= k < |st.chains[c]| && st.chains[c][k] == r;
      assert now.chains[c][if k < i then k else k - 1] == r;
    } else {
      assert r in now.chains[FORWARD];
      if c == g {
        assert now.chains[c][|now.chains[c]| - 1] == st.chains[c][|st.chains[c]| - 1];
      }
    }
  }

  /** Deleting a rule that closes nothing and, in FORWARD, guards nothing. */
  lemma GoodRemove(st: State, w: map<Cond, string>, c: string, i: nat)
    requires Good(st, w) && c in st.chains && i < |st.chains[c]|
    requires IsPodChain(c) ==> !Final(st.chains[c][i])
    requires c == FORWARD && st.chains[c][i].target.Jump? ==> st.chains[c][i].target.chain !in w.Values
    ensures Good(State(st.chains[c := st.chains[c][..i] + st.chains[c][i + 1..]], st.sets), w)
  {
    var rules := st.chains[c];
    var left := rules[..i] + rules[i + 1..];
    var now := State(st.chains[c := left], st.sets);
    if IsPodChain(c) {
      ClosesLastRemove(rules, i);
    }
    SoundUpdate(st, c, left);
    forall key | key in w
      ensures Guard(now, key, w[key])
    {
      GuardRemove(st, now, key, w[key], c, i);
    }
  }

  lemma GoodDeleteChain(st: State, w: map<Cond, string>, c: string)
    requires Good(st, w) && !Referenced(st.chains, c) && c != FORWARD && c != OUTPUT && c !in w.Values
    ensures Good(State(st.chains - {c}, st.sets), w)
  {
    var now := State(st.chains - {c}, st.sets);
    forall k, r | k in now.chains && r in now.chains[k]
      ensures Resolvable(now, r)
    {
      assert Resolvable(st, r);
    }
    forall key | key in w
      ensures Guard(now, key, w[key])
    {
      assert Guard(st, key, w[key]);
      assert w[key] in w.Values;
    }
  }

  // The good states as one invariant that the building commands cannot leave.

  ghost function GoodStates(w: map<Cond, string>): iset<State> {
    iset st | Good(st, w)
  }

  ghost predicate ClosedNew(inv: iset<State>, c: string) {
    forall st :: st in inv && c !in st.chains ==> State(st.chains[c := []], st.sets) in inv
  }

  ghost predicate ClosedFront(inv: iset<State>, c: string, r: Rule) {
    Layered(c, r) && !Final(r) ==>
      forall st :: st in inv && c in st.chains && Resolvable(st, r) ==>
        State(st.chains[c := [r] + st.chains[c]], st.sets) in inv
  }

  ghost predicate ClosedBack(inv: iset<State>, c: string, r: Rule) {
    Layered(c, r) && (IsPodChain(c) ==> Final(r)) ==>
      forall st :: st in inv && c in st.chains && Resolvable(st, r) ==>
        State(st.chains[c := st.chains[c] + [r]], st.sets) in inv
  }

  ghost predicate ClosedSets(inv: iset<State>) {
    && (forall st, sets: Sets :: st in inv && st.sets.Keys <= sets.Keys ==> State(st.chains, sets) in inv)
    && (forall st, now, name, temp, filled :: st in inv && MidRefresh(st, now, name, temp, filled) ==> now in inv)
  }

  ghost predicate AllSound(inv: iset<State>) {
    forall st :: st in inv ==> Sound(st)
  }

  ghost predicate Stable(inv: iset<State>) {
    && AllSound(inv)
    && (forall c :: ClosedNew(inv, c))
    && (forall c, r :: ClosedFront(inv, c, r))
    && (forall c, r :: ClosedBack(inv, c, r))
    && ClosedSets(inv)
  }

  lemma GoodStable(w: map<Cond, string>)
    ensures Stable(GoodStates(w))
  {
    var inv := GoodStates(w);
    forall c
      ensures ClosedNew(inv, c)
    {
      forall st | st in inv && c !in st.chains
        ensures State(st.chains[c := []], st.sets) in inv
      {
        GoodNewChain(st, w, c);
      }
    }
    forall c, r
      ensures ClosedFront(inv, c, r) && ClosedBack(inv, c, r)
    {
      forall st | st in inv && c in st.chains && Resolvable(st, r)
        ensures Layered(c, r) && !Final(r) ==> State(st.chains[c := [r] + st.chains[c]], st.sets) in inv
        ensures Layered(c, r) && (IsPodChain(c) ==> Final(r)) ==>
                  State(st.chains[c := st.chains[c] + [r]], st.sets) in inv
      {
        if Layered(c, r) && !Final(r) {
          GoodFront(st, w, c, r);
        }
        if Layered(c, r) && (IsPodChain(c) ==> Final(r)) {
          GoodBack(st, w, c, r);
        }
      }
    }
    forall st, sets: Sets | st in inv && st.sets.Keys <= sets.Keys
      ensures State(st.chains, sets) in inv
    {
      GoodCreate(st, w, sets);
    }
    forall st, now, name, temp, filled | st in inv && MidRefresh(st, now, name, temp, filled)
      ensures now in inv
    {
      GoodMidRefresh(st, w, now, name, temp, filled);
    }
  }
}
