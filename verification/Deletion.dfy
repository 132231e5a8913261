/** Deleting rules by their numbers while the numbers shift. */
module Deletion {
  import opened Netfilter
  import opened Kernel
  import opened Naming
  import opened Firewall
  import opened Sync

  /** The rules that mention none of these chains, in order. */
  function Clear(rules: seq<Rule>, stale: set<string>): seq<Rule> {
    if rules == [] then []
    else
      var last := rules[|rules| - 1];
      Clear(rules[..|rules| - 1], stale) + if Names(last) !! stale then [last] else []
  }

  lemma {:induction false} ClearMembers(rules: seq<Rule>, stale: set<string>)
    ensures |Clear(rules, stale)| <= |rules|
    ensures forall r :: r in Clear(rules, stale) <==> r in rules && Names(r) !! stale
  {
    hide Names;
    if rules != [] {
      ClearMembers(rules[..|rules| - 1], stale);
      assert rules == rules[..|rules| - 1] + [rules[|rules| - 1]];
    }
  }

  lemma ClearLast(rules: seq<Rule>, stale: set<string>)
    requires rules != [] && Names(rules[|rules| - 1]) !! stale
    ensures Clear(rules, stale) == Clear(rules[..|rules| - 1], stale) + [rules[|rules| - 1]]
  {
  }

  lemma {:induction false} ClearSame(rules: seq<Rule>, stale: set<string>)
    requires forall r :: r in rules ==> Names(r) !! stale
    ensures Clear(rules, stale) == rules
  {
    hide Names;
    if rules != [] {
      var init, last := rules[..|rules| - 1], rules[|rules| - 1];
      assert rules == init + [last];
      assert last in rules;
      ClearSame(init, stale);
      ClearLast(rules, stale);
      hide Clear;
    }
  }

  lemma {:induction false} ClearTwice(rules: seq<Rule>, a: set<string>, b: set<string>)
    ensures Clear(Clear(rules, a), b) == Clear(rules, a + b)
  {
    hide Names;
    if rules != [] {
      var init, last := rules[..|rules| - 1], rules[|rules| - 1];
      ClearTwice(init, a, b);
      if Names(last) !! a {
        var once := Clear(init, a) + [last];
        assert Clear(rules, a) == once && once[..|once| - 1] == Clear(init, a);
        assert Names(last) !! b <==> Names(last) !! a + b;
      } else {
        assert Clear(rules, a) == Clear(init, a);
        var x :| x in Names(last) && x in a;
        assert x in a + b;
      }
    }
  }

  lemma {:induction false} ClearConcat(a: seq<Rule>, b: seq<Rule>, stale: set<string>)
    ensures Clear(a + b, stale) == Clear(a, stale) + Clear(b, stale)
  {
    hide Names;
    if b == [] {
      assert a + b == a;
    } else {
      var init := b[..|b| - 1];
      ClearConcat(a, init, stale);
      assert (a + b)[..|a + b| - 1] == a + init;
    }
  }

  lemma ClearSnoc(rules: seq<Rule>, i: nat, stale: set<string>)
    requires i < |rules|
    ensures Clear(rules[..i + 1], stale) ==
            Clear(rules[..i], stale) + if Names(rules[i]) !! stale then [rules[i]] else []
  {
    assert rules[..i + 1][..i] == rules[..i];
  }

  /** The lines are what listing the chain prints now. */
  ghost predicate Listing(rules: seq<Rule>, lines: seq<Line>) {
    && |lines| == |rules| + 1 && lines[0].Header?
    && forall i :: 0 <= i < |rules| ==> lines[i + 1] == Spec(rules[i])
  }

  /** What substring search for a chain name finds: a chain's own name in its header, mentioned names in a rule. */
  predicate Mentions(line: Line, c: string) {
    match line
    case Header(own) => own == c
    case Spec(r) => c in Names(r)
  }

  /** The rules when the first `i` have been visited. */
  function Visited(rules: seq<Rule>, i: nat, stale: set<string>): seq<Rule>
    requires i <= |rules|
  {
    Clear(rules[..i], stale) + rules[i..]
  }

  lemma VisitedStep(rules: seq<Rule>, i: nat, stale: set<string>)
    requires i < |rules|
    ensures Names(rules[i]) !! stale ==> Visited(rules, i + 1, stale) == Visited(rules, i, stale)
    ensures var k, now := |Clear(rules[..i], stale)|, Visited(rules, i, stale);
            && k < |now| && now[k] == rules[i]
            && (!(Names(rules[i]) !! stale) ==> Visited(rules, i + 1, stale) == now[..k] + now[k + 1..])
    ensures |Clear(rules[..i + 1], stale)| == |Clear(rules[..i], stale)| + if Names(rules[i]) !! stale then 1 else 0
  {
    hide Names;
    ClearSnoc(rules, i, stale);
    assert rules[i..] == [rules[i]] + rules[i + 1..];
  }

  lemma VisitedEnds(rules: seq<Rule>, stale: set<string>)
    ensures Visited(rules, 0, stale) == rules && Clear(rules[..0], stale) == []
    ensures Visited(rules, |rules|, stale) == Clear(rules, stale) && rules[..|rules|] == rules
  {
    assert rules[..|rules|] == rules;
  }

  /** The rules without the first that mentions a chain. */
  function WithoutFirst(rules: seq<Rule>, c: string): seq<Rule> {
    if rules == [] then []
    else if c in Names(rules[0]) then rules[1..]
    else [rules[0]] + WithoutFirst(rules[1..], c)
  }

  ghost predicate AtMostOne(rules: seq<Rule>, c: string) {
    forall i, j :: 0 <= i < j < |rules| ==> !(c in Names(rules[i]) && c in Names(rules[j]))
  }

  lemma {:induction false} WithoutFirstAt(rules: seq<Rule>, c: string, i: nat)
    requires i <= |rules| && forall j :: 0 <= j < i ==> c !in Names(rules[j])
    ensures i == |rules| ==> WithoutFirst(rules, c) == rules
    ensures i < |rules| && c in Names(rules[i]) ==> WithoutFirst(rules, c) == rules[..i] + rules[i + 1..]
    decreases |rules|
  {
    hide Names;
    if i > 0 {
      WithoutFirstAt(rules[1..], c, i - 1);
      if i < |rules| {
        assert [rules[0]] + (rules[1..][..i - 1] + rules[1..][i..]) == rules[..i] + rules[i + 1..];
      }
    }
  }

  /**
   Removing the first mention of one chain leaves no more mentions of any other, and none of a
   chain mentioned once.
   */
  lemma {:induction false} WithoutFirstMentions(rules: seq<Rule>, c: string, x: string)
    ensures forall r :: r in WithoutFirst(rules, c) ==> r in rules
    ensures AtMostOne(rules, x) ==> AtMostOne(WithoutFirst(rules, c), x)
    ensures AtMostOne(rules, c) ==> forall r :: r in WithoutFirst(rules, c) ==> c !in Names(r)
  {
    hide Names;
    if rules != [] {
      var tail := rules[1..];
      WithoutFirstMentions(tail, c, x);
      assert forall j :: 0 <= j < |tail| ==> tail[j] == rules[j + 1];
      assert AtMostOne(rules, x) ==> AtMostOne(tail, x);
      assert AtMostOne(rules, c) ==> AtMostOne(tail, c);
      if c !in Names(rules[0]) {
        var left := WithoutFirst(rules, c);
        assert left[1..] == WithoutFirst(tail, c);
        if AtMostOne(rules, x) {
          forall i, j | 0 <= i < j < |left|
            ensures !(x in Names(left[i]) && x in Names(left[j]))
          {
            if i == 0 {
              assert left[j] == WithoutFirst(tail, c)[j - 1] && left[j] in tail;
            } else {
              assert left[i] == WithoutFirst(tail, c)[i - 1] && left[j] == WithoutFirst(tail, c)[j - 1];
            }
          }
        }
      }
    }
  }

  lemma WithinOne(a: seq<State>, b: seq<State>, c: seq<State>, inv: iset<State>)
    requires Within(a, b, inv) && |c| == |b| + 1 && c[..|b|] == b && c[|b|] in inv
    ensures Within(a, c, inv)
  {
  }

  /** A rule of a base chain that mentions an unguarded pod chain can go. */
  lemma RemoveMention(st: State, w: map<Cond, string>, base: string, k: nat, c: string)
    requires Good(st, w) && (base == FORWARD || base == OUTPUT) && base in st.chains && k < |st.chains[base]|
    requires c in Names(st.chains[base][k]) && IsPodChain(c) && c !in w.Values
    ensures Good(State(st.chains[base := st.chains[base][..k] + st.chains[base][k + 1..]], st.sets), w)
  {
    ChainKindsDisjoint(base);
    var r := st.chains[base][k];
    assert Layered(base, r);
    assert forall key :: key in w ==> Guard(st, key, w[key]);
    assert forall g :: g in w.Values ==> IsPodChain(g);
    GoodRemove(st, w, base, k);
  }

  /**
   Delete every rule that mentions the pod chain `c`, numbering the rules by their place in the list
   less the deletions so far, and stopping when a deletion fails.
   */
  method DeleteMentions(kernel: Kernel, base: string, lines: seq<Line>, c: string,
                        ghost w: map<Cond, string>) returns (ok: bool)
    requires base == FORWARD || base == OUTPUT
    requires base in kernel.chains && Listing(kernel.chains[base], lines) && lines[0] == Header(base)
    requires Good(kernel.Now(), w) && IsPodChain(c) && c !in w.Values
    modifies kernel
    ensures Good(kernel.Now(), w) && Within(old(kernel.log), kernel.log, GoodStates(w))
    ensures kernel.sets == old(kernel.sets)
    ensures exists i: nat :: i <= |old(kernel.chains[base])| &&
              kernel.chains == old(kernel.chains)[base := Visited(old(kernel.chains[base]), i, {c})]
    ensures ok ==> kernel.chains == old(kernel.chains)[base := Clear(old(kernel.chains[base]), {c})]
    ensures old(kernel.faults) <= kernel.faults && (kernel.faults == old(kernel.faults) ==> ok)
  {
    hide Good, Within, Names, Clear, Visited, IsPodChain;
    ok := true;
    ChainKindsDisjoint(c);
    ghost var before, rules := kernel.chains, kernel.chains[base];
    VisitedEnds(rules, {c});
    WithinSame(kernel.log, GoodStates(w));
    var i, removed := 0, 0;
    while i < |lines|
      invariant 0 <= i <= |lines| && ok && old(kernel.faults) <= kernel.faults
      invariant Good(kernel.Now(), w) && Within(old(kernel.log), kernel.log, GoodStates(w))
      invariant kernel.sets == old(kernel.sets)
      invariant i == 0 ==> kernel.chains == before && removed == 0
      invariant i > 0 ==> kernel.chains == before[base := Visited(rules, i - 1, {c})]
      invariant i > 0 ==> i - removed == |Clear(rules[..i - 1], {c})| + 1
    {
      if i > 0 {
        VisitedStep(rules, i - 1, {c});
        assert c in Names(rules[i - 1]) <==> !(Names(rules[i - 1]) !! {c});
      }
      if Mentions(lines[i], c) {
        ghost var log1, k := kernel.log, |Clear(rules[..i - 1], {c})|;
        RemoveMention(kernel.Now(), w, base, k, c);
        var s := kernel.DeleteRule(base, i - removed);
        WithinOne(old(kernel.log), log1, kernel.log, GoodStates(w));
        if s != Ok {
          ok := false;
          return;
        }
        removed := removed + 1;
      }
      i := i + 1;
    }
  }

  // The final teardown numbers rules the same way but passes over failed deletions.

  function PodNames(rules: seq<Rule>): set<string> {
    set r, n | r in rules && n in Names(r) && IsPodChain(n) :: n
  }

  predicate MentionsPods(line: Line) {
    match line
    case Header(own) => IsPodChain(own)
    case Spec(r) => exists n :: n in Names(r) && IsPodChain(n)
  }

  lemma MentionsPodsNames(rules: seq<Rule>, r: Rule)
    requires r in rules
    ensures MentionsPods(Spec(r)) <==> !(Names(r) !! PodNames(rules))
  {
    hide Names;
    if MentionsPods(Spec(r)) {
      var n :| n in Names(r) && IsPodChain(n);
      assert n in PodNames(rules);
    }
  }

  /** The rules that a sweep has passed and kept, and how many deletions have failed so far. */
  datatype Swept = Swept(kept: seq<Rule>, lag: nat)

  function Without(rules: seq<Rule>, k: nat): seq<Rule>
    requires k < |rules|
  {
    rules[..k] + rules[k + 1..]
  }

  /** A deletion takes the rule that is as many places before the one it is meant for as deletions have failed. */
  function SweepStep(s: Swept, r: Rule, works: bool): (s': Swept)
    requires s.lag <= |s.kept|
    ensures s'.lag <= |s'.kept|
  {
    if !MentionsPods(Spec(r)) then s.(kept := s.kept + [r])
    else if works then s.(kept := Without(s.kept + [r], |s.kept| - s.lag))
    else Swept(s.kept + [r], s.lag + 1)
  }

  /** What a sweep over as many rules leaves, given which deletions work. */
  function Sweep(rules: seq<Rule>, works: seq<bool>): (s: Swept)
    requires |works| <= |rules|
    ensures s.lag <= |s.kept|
  {
    if works == [] then Swept([], 0)
    else
      var n := |works| - 1;
      SweepStep(Sweep(rules, works[..n]), rules[n], works[n])
  }

  lemma SweepSnoc(rules: seq<Rule>, works: seq<bool>, b: bool)
    requires |works| < |rules|
    ensures Sweep(rules, works + [b]) == SweepStep(Sweep(rules, works), rules[|works|], b)
  {
    hide SweepStep;
    assert (works + [b])[..|works|] == works;
  }

  /** The rule that goes from a chain goes from the part that was passed. */
  lemma WithoutFront(kept: seq<Rule>, rules: seq<Rule>, k: nat)
    requires rules != [] && k <= |kept|
    ensures var now := kept + rules;
            && now == (kept + [rules[0]]) + rules[1..]
            && now[..k] + now[k + 1..] == Without(kept + [rules[0]], k) + rules[1..]
  {
  }

  lemma ClearNothing(stale: set<string>)
    ensures Clear([], stale) == []
  {
  }

  /** One rule too many is left for every failed deletion; with none failed the right rules are left. */
  lemma {:induction false} SweepLeaves(rules: seq<Rule>, works: seq<bool>)
    requires |works| <= |rules|
    ensures var s, clear := Sweep(rules, works), Clear(rules[..|works|], PodNames(rules));
            |s.kept| == |clear| + s.lag && (s.lag == 0 ==> s.kept == clear)
  {
    hide Names, Clear, PodNames, MentionsPods;
    var stale := PodNames(rules);
    if works == [] {
      assert rules[..0] == [];
      ClearNothing(stale);
    } else {
      var n := |works| - 1;
      SweepLeaves(rules, works[..n]);
      MentionsPodsNames(rules, rules[n]);
      ClearSnoc(rules, n, stale);
      var s := Sweep(rules, works[..n]);
      assert s.lag == 0 ==> Without(s.kept + [rules[n]], |s.kept|) == s.kept;
    }
  }

  lemma StepKeepsFront(front: seq<Rule>, s: Swept, r: Rule, b: bool)
    requires front <= s.kept && |front| + s.lag <= |s.kept|
    ensures front <= SweepStep(s, r, b).kept
  {
    hide MentionsPods;
  }

  lemma {:induction false} ClearGrows(rules: seq<Rule>, i: nat, n: nat, stale: set<string>)
    requires i <= n <= |rules|
    ensures |Clear(rules[..i], stale)| <= |Clear(rules[..n], stale)|
    decreases n
  {
    hide Names, Clear;
    if i < n {
      ClearGrows(rules, i, n - 1, stale);
      ClearSnoc(rules, n - 1, stale);
    }
  }

  /** All rules up to the first failed deletion are dealt with rightly, whatever happens afterwards. */
  lemma {:induction false} SweepPrefix(rules: seq<Rule>, works: seq<bool>, i: nat)
    requires i <= |works| <= |rules| && Sweep(rules, works[..i]).lag == 0
    ensures Clear(rules[..i], PodNames(rules)) <= Sweep(rules, works).kept
    decreases |works|
  {
    hide Names, Clear, PodNames, SweepStep;
    if i == |works| {
      assert works[..i] == works;
      SweepLeaves(rules, works);
    } else {
      var n := |works| - 1;
      assert works[..n][..i] == works[..i];
      SweepPrefix(rules, works[..n], i);
      SweepLeaves(rules, works[..n]);
      ClearGrows(rules, i, n, PodNames(rules));
      StepKeepsFront(Clear(rules[..i], PodNames(rules)), Sweep(rules, works[..n]), rules[n], works[n]);
    }
  }

  /** A chain in the middle of a sweep, after as many rules. */
  ghost predicate Sweeping(rules: seq<Rule>, works: seq<bool>, chain: seq<Rule>) {
    |works| <= |rules| && chain == Sweep(rules, works).kept + rules[|works|..]
  }

  /** The sweep passes one more rule, which it deletes by number if it mentions a pod chain and the deletion works. */
  lemma SweepPasses(rules: seq<Rule>, works: seq<bool>, chain: seq<Rule>, chain': seq<Rule>, number: int, b: bool)
    requires |works| < |rules| && Sweeping(rules, works, chain)
    requires number == |Sweep(rules, works).kept| - Sweep(rules, works).lag + 1 <= |chain|
    requires chain' == if MentionsPods(Spec(rules[|works|])) && b then chain[..number - 1] + chain[number..] else chain
    ensures Sweeping(rules, works + [b], chain')
    ensures var s, s', hit := Sweep(rules, works), Sweep(rules, works + [b]), MentionsPods(Spec(rules[|works|]));
            && s'.lag == (if hit && !b then s.lag + 1 else s.lag)
            && |s'.kept| == (if hit && b then |s.kept| else |s.kept| + 1)
  {
    hide MentionsPods, Sweep;
    var n, s := |works|, Sweep(rules, works);
    WithoutFront(s.kept, rules[n..], number - 1);
    assert rules[n..][0] == rules[n] && rules[n..][1..] == rules[n + 1..];
    SweepSnoc(rules, works, b);
  }

  lemma SweepStart(rules: seq<Rule>)
    ensures Sweep(rules, []) == Swept([], 0) && Sweeping(rules, [], rules)
  {
  }

  lemma SweepingLength(rules: seq<Rule>, works: seq<bool>, chain: seq<Rule>)
    requires Sweeping(rules, works, chain)
    ensures |chain| == |Sweep(rules, works).kept| + |rules| - |works|
  {
  }

  lemma SweepEnds(rules: seq<Rule>, works: seq<bool>, chain: seq<Rule>)
    requires |works| == |rules| && Sweeping(rules, works, chain)
    ensures chain == Sweep(rules, works).kept
    ensures chain == Clear(rules, PodNames(rules)) <==> Sweep(rules, works).lag == 0
  {
    hide Sweep;
    SweepLeaves(rules, works);
    assert rules[..|rules|] == rules;
  }

  lemma HeaderMentions(base: string)
    ensures MentionsPods(Header(base)) <==> IsPodChain(base)
  {
  }

  /**
   Delete every rule that mentions a pod chain, counting a deletion whether it worked or not. What
   remains is what the sweep leaves for the deletions that worked; it is exactly the rules that mention
   no pod chain if and only if no deletion failed.
   */
  method SweepMentions(kernel: Kernel, base: string, lines: seq<Line>) returns (ghost works: seq<bool>)
    requires base in kernel.chains && Listing(kernel.chains[base], lines) && lines[0] == Header(base)
    requires !IsPodChain(base)
    modifies kernel
    ensures kernel.sets == old(kernel.sets) && |works| == |old(kernel.chains[base])|
    ensures kernel.chains == old(kernel.chains)[base := Sweep(old(kernel.chains[base]), works).kept]
    ensures old(kernel.faults) <= kernel.faults
    ensures kernel.faults == old(kernel.faults) <==>
            kernel.chains[base] == Clear(old(kernel.chains[base]), PodNames(old(kernel.chains[base])))
  {
    hide Names, Clear, IsPodChain, PodNames, MentionsPods, Sweep, Sweeping;
    ghost var before, rules := kernel.chains, kernel.chains[base];
    works := [];
    var i, removed := 0, 0;
    HeaderMentions(base);
    SweepStart(rules);
    while i < |lines|
      invariant 0 <= i <= |lines| && |works| == (if i == 0 then 0 else i - 1)
      invariant kernel.sets == old(kernel.sets) && old(kernel.faults) <= kernel.faults && base in kernel.chains
      invariant kernel.chains == before[base := kernel.chains[base]] && Sweeping(rules, works, kernel.chains[base])
      invariant kernel.faults == old(kernel.faults) <==> Sweep(rules, works).lag == 0
      invariant |Sweep(rules, works).kept| == |works| - removed + Sweep(rules, works).lag
    {
      ghost var chain, number, worked := kernel.chains[base], i - removed, true;
      SweepingLength(rules, works, chain);
      if MentionsPods(lines[i]) {
        var status := kernel.DeleteRule(base, i - removed);
        removed := removed + 1;
        worked := status == Ok;
      }
      if i > 0 {
        SweepPasses(rules, works, chain, kernel.chains[base], number, worked);
        works := works + [worked];
      }
      i := i + 1;
    }
    SweepEnds(rules, works, kernel.chains[base]);
  }

  lemma ClearMentions(rules: seq<Rule>, i: nat)
    requires i < |rules|
    ensures Clear(rules[..i + 1], PodNames(rules)) ==
            Clear(rules[..i], PodNames(rules)) + if MentionsPods(Spec(rules[i])) then [] else [rules[i]]
  {
    hide Names, Clear, PodNames, MentionsPods;
    MentionsPodsNames(rules, rules[i]);
    ClearSnoc(rules, i, PodNames(rules));
  }

  lemma ClearMiddle(a: Rule, b: Rule, c: Rule)
    requires MentionsPods(Spec(a)) && !MentionsPods(Spec(b)) && MentionsPods(Spec(c))
    ensures Clear([a, b, c], PodNames([a, b, c])) == [b]
  {
    hide Names, MentionsPods, PodNames, Clear;
    var rules := [a, b, c];
    ClearNothing(PodNames(rules));
    assert rules[..0] == [] && rules[..3] == rules;
    ClearMentions(rules, 0);
    ClearMentions(rules, 1);
    ClearMentions(rules, 2);
  }

  /**
   When the deletion of the first of three rules fails, the deletion meant for the third takes the
   second, which mentions no pod chain; the two that should go are left.
   */
  lemma FailedDeletionShifts(a: Rule, b: Rule, c: Rule)
    requires MentionsPods(Spec(a)) && !MentionsPods(Spec(b)) && MentionsPods(Spec(c))
    ensures var rules := [a, b, c];
            Clear(rules, PodNames(rules)) == [b] && Sweep(rules, [false, true, true]) == Swept([a, c], 1)
  {
    hide Names, MentionsPods, PodNames, Clear, Sweep;
    var rules := [a, b, c];
    SweepStart(rules);
    SweepSnoc(rules, [], false);
    SweepSnoc(rules, [false], true);
    SweepSnoc(rules, [false, true], true);
    assert [] + [false] == [false] && [false] + [true] == [false, true] &&
      [false, true] + [true] == [false, true, true];
    assert Without([a, b, c], 1) == [a, c];
    ClearMiddle(a, b, c);
  }
}
