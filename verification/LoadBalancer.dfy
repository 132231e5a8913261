/** The client-side load balancer of an agent. */
module LoadBalancer {
  import opened Basics
  import opened Text

  ghost predicate InOrder(s: seq<string>) {
    forall i, j :: 0 <= i < j < |s| ==> Less(s[i], s[j])
  }

  /** Insert a new entry into a list in order. */
  method InsertInOrder(s: seq<string>, x: string) returns (r: seq<string>)
    requires InOrder(s) && x !in s
    ensures InOrder(r) && forall y :: y in r <==> y in s || y == x
  {
    var i := 0;
    while i < |s| && Less(s[i], x)
      invariant 0 <= i <= |s|
      invariant forall k :: 0 <= k < i ==> Less(s[k], x)
    {
      i := i + 1;
    }
    r := s[..i] + [x] + s[i..];
    forall k | i <= k < |s|
      ensures Less(x, s[k])
    {
      LessTotal(x, s[i]);
      if k > i {
        LessTrans(x, s[i], s[k]);
      }
    }
    forall a, b | 0 <= a < b < |r|
      ensures Less(r[a], r[b])
    {
      if a == i {
        assert r[b] == s[b - 1];
      } else if b == i {
        assert r[a] == s[a];
      }
    }
    assert forall y :: y in r <==> y in s[..i] || y == x || y in s[i..];
    assert s == s[..i] + s[i..];
  }

  /** The distinct non-empty entries in order, and whether the one searched for is among them. */
  method SortServers(input: seq<string>, search: string) returns (result: seq<string>, found: bool)
    ensures InOrder(result) && forall x :: x in result <==> x in input && x != ""
    ensures found <==> search in result
  {
    result, found := [], false;
    for i := 0 to |input|
      invariant InOrder(result) && forall x :: x in result <==> x in input[..i] && x != ""
      invariant found <==> search in result
    {
      var entry := input[i];
      assert input[..i + 1] == input[..i] + [entry];
      if entry != "" && entry !in result {
        found := found || search == entry;
        result := InsertInOrder(result, entry);
      }
    }
    assert input[..|input|] == input;
  }

  lemma EmptyAlike(a: seq<string>, b: seq<string>)
    requires forall x :: x in a <==> x in b
    ensures a == [] <==> b == []
  {
    if a != [] {
      assert a[0] in a;
    }
    if b != [] {
      assert b[0] in b;
    }
  }

  lemma SameHead(a: seq<string>, b: seq<string>)
    requires a != [] && b != [] && InOrder(a) && InOrder(b) && forall x :: x in a <==> x in b
    ensures a[0] == b[0]
  {
    assert a[0] in b && b[0] in a;
    LessTotal(a[0], b[0]);
  }

  lemma TailEntries(a: seq<string>, b: seq<string>)
    requires a != [] && b != [] && InOrder(a) && a[0] == b[0] && forall x :: x in a ==> x in b
    ensures forall x :: x in a[1..] ==> x in b[1..]
  {
    forall x | x in a[1..]
      ensures x in b[1..]
    {
      var i :| 1 <= i < |a| && a[i] == x;
      LessTotal(a[0], a[i]);
      assert x in b;
    }
  }

  /** A list in order is determined by its entries. */
  lemma {:induction false} OrderIsCanonical(a: seq<string>, b: seq<string>)
    requires InOrder(a) && InOrder(b) && forall x :: x in a <==> x in b
    ensures a == b
  {
    EmptyAlike(a, b);
    if a != [] {
      SameHead(a, b);
      TailEntries(a, b);
      TailEntries(b, a);
      OrderIsCanonical(a[1..], b[1..]);
    }
  }

  lemma InOrderDistinct(s: seq<string>)
    requires InOrder(s)
    ensures NoRepeats(s)
  {
    forall i, j | 0 <= i < j < |s|
      ensures s[i] != s[j]
    {
      LessTotal(s[i], s[j]);
    }
  }

  /** The same entries the same number of times. */
  ghost predicate Permutation(a: seq<string>, b: seq<string>) {
    multiset(a) == multiset(b)
  }

  lemma {:induction false} DistinctCounts(s: seq<string>)
    ensures NoRepeats(s) <==> forall x :: multiset(s)[x] <= 1
  {
    if s != [] {
      var init, last := s[..|s| - 1], s[|s| - 1];
      DistinctCounts(init);
      assert s == init + [last];
      assert multiset(s) == multiset(init) + multiset{last};
      assert last in init <==> multiset(init)[last] >= 1;
      if NoRepeats(s) {
        assert NoRepeats(init) && last !in init;
      } else if NoRepeats(init) {
        assert last in init;
        assert multiset(s)[last] >= 2;
      } else {
        var x :| multiset(init)[x] > 1;
        assert multiset(s)[x] > 1;
      }
    }
  }

  lemma PermutationDistinct(a: seq<string>, b: seq<string>)
    requires Permutation(a, b) && NoRepeats(a)
    ensures NoRepeats(b) && |a| == |b| && forall x :: x in a <==> x in b
  {
    DistinctCounts(a);
    DistinctCounts(b);
    assert |multiset(a)| == |a| && |multiset(b)| == |b|;
    forall x
      ensures x in a <==> x in b
    {
      assert x in a <==> x in multiset(a);
      assert x in b <==> x in multiset(b);
    }
  }

  /** A random shuffle, by swaps from the end. */
  method Shuffle(s: seq<string>) returns (r: seq<string>)
    ensures Permutation(s, r)
  {
    r := s;
    var i := |r| - 1;
    while i > 0
      invariant |r| == |s| && i < |r| && Permutation(s, r)
    {
      var j: nat :| j <= i;
      r := r[i := r[j]][j := r[i]];
      i := i - 1;
    }
  }

  /** The place `i` steps after `start` in a round of `n`, counting from 1. */
  function Place(start: nat, i: nat, n: nat): int {
    if start + i <= n then start + i else start + i - n
  }

  /** The servers from the place `start` on, in order and around. */
  ghost predicate InRotation(tried: seq<string>, servers: seq<string>, start: nat) {
    && 1 <= start <= |servers| && |tried| <= |servers|
    && forall i :: 0 <= i < |tried| ==> tried[i] == servers[Place(start, i, |servers|) - 1]
  }

  /** None of these dials was answered, and after none of them had the caller given up. */
  ghost predicate InVain(tried: seq<string>, answers: string -> bool, cancelled: nat -> bool) {
    forall i :: 0 <= i < |tried| ==> !answers(tried[i]) && !cancelled(i + 1)
  }

  /** Counting around is counting modulo. */
  lemma Around(start: nat, i: nat, n: nat)
    requires 1 <= start <= n && i < n
    ensures 0 < Place(start, i, n) && Place(start, i, n) - 1 == (start - 1 + i) % n
  {
    var x := start - 1 + i;
    if x < n {
      Quotient(x, n, 0, x);
    } else {
      Quotient(x, n, 1, x - n);
    }
  }

  lemma InTurn(servers: seq<string>, start: nat, tried: seq<string>)
    requires InRotation(tried, servers, start)
    ensures forall i :: 0 <= i < |tried| ==> tried[i] == servers[(start - 1 + i) % |servers|]
  {
    forall i | 0 <= i < |tried|
      ensures tried[i] == servers[(start - 1 + i) % |servers|]
    {
      Around(start, i, |servers|);
    }
  }

  lemma NoneTried(servers: seq<string>, start: nat, answers: string -> bool, cancelled: nat -> bool)
    requires 1 <= start <= |servers|
    ensures InRotation([], servers, start) && InVain([], answers, cancelled)
  {
  }

  lemma OneTried(tried: seq<string>, target: string, servers: seq<string>, start: nat, answers: string -> bool,
                 cancelled: nat -> bool)
    requires InRotation(tried, servers, start) && InVain(tried, answers, cancelled) && |tried| < |servers|
    requires target == servers[Place(start, |tried|, |servers|) - 1]
    ensures InRotation(tried + [target], servers, start) && (tried + [target])[..|tried|] == tried
    ensures !answers(target) && !cancelled(|tried| + 1) ==> InVain(tried + [target], answers, cancelled)
  {
    var all := tried + [target];
    if !answers(target) && !cancelled(|tried| + 1) {
      forall i | 0 <= i < |all|
        ensures !answers(all[i]) && !cancelled(i + 1)
      {
        assert i < |tried| ==> all[i] == tried[i];
      }
    }
  }

  lemma RoundDistinct(servers: seq<string>, start: nat, tried: seq<string>)
    requires NoRepeats(servers) && InRotation(tried, servers, start)
    ensures NoRepeats(tried)
    ensures |tried| == |servers| ==> forall x :: x in tried <==> x in servers
  {
    if |tried| == |servers| {
      forall x | x in servers
        ensures x in tried
      {
        var k :| 0 <= k < |servers| && servers[k] == x;
        var i := if k + 1 >= start then k + 1 - start else k + 1 - start + |servers|;
        assert tried[i] == x;
      }
    }
  }

  /** The place after `k` in a round of `n`, counting from 1. */
  function After(k: nat, n: nat): nat {
    if k >= n then 1 else k + 1
  }

  lemma NoEntries(input: seq<string>, sorted: seq<string>)
    requires sorted == [] && forall x :: x in sorted <==> x in input && x != ""
    ensures !(exists x :: x in input && x != "")
  {
    assert forall x :: x in input && x != "" ==> x in sorted;
  }

  datatype Dial = Connected(server: string) | AllFailed | Cancelled | NoServers

  class Balancer {
    const original: string
    var addresses: seq<string>  // as last set, in order
    var servers: seq<string>    // the addresses shuffled, and the original server
    var current: string
    var next: nat

    ghost predicate Valid()
      reads this
    {
      && InOrder(addresses) && "" !in addresses
      && if servers == [] then
           addresses == [] && current == "" && next == 0
         else
           && NoRepeats(servers) && (forall x :: x in servers <==> x in addresses || x == original)
           && 1 <= next <= |servers| && current == servers[next - 1]
    }

    /** An empty address for the original server leaves the list empty. */
    constructor (server: string)
      ensures Valid() && original == server
      ensures servers == addresses == if server == "" then [] else [server]
    {
      original, addresses, servers, current, next := server, [], [], "", 0;
      new;
      if server != "" {
        addresses, servers, current, next := [server], [server], server, 1;
      }
    }

    /** Replace the addresses. Nothing changes unless they differ, as a set, from those in place. */
    method SetServers(input: seq<string>) returns (changed: bool)
      requires Valid()
      modifies this
      ensures Valid()
      ensures changed <==>
              (exists x :: x in input && x != "") && !(forall x :: x in input && x != "" <==> x in old(addresses))
      ensures changed ==> next == 1 && forall x :: x in addresses <==> x in input && x != ""
      ensures changed ==> NoRepeats(servers) && forall x :: x in servers <==> (x in input && x != "") || x == original
      ensures !changed ==>
                addresses == old(addresses) && servers == old(servers) && current == old(current) && next == old(next)
    {
      var sorted, found := SortServers(input, original);
      if sorted == [] {
        NoEntries(input, sorted);
        return false;
      }
      assert sorted[0] in input && sorted[0] != "";
      if sorted == addresses {
        return false;
      }
      if forall x :: x in sorted <==> x in addresses {
        OrderIsCanonical(sorted, addresses);
      }
      addresses := sorted;
      var shuffled := Shuffle(sorted);
      InOrderDistinct(sorted);
      PermutationDistinct(sorted, shuffled);
      servers := if found then shuffled else shuffled + [original];
      current, next := servers[0], 1;
      changed := true;
    }

    /** Move on from a failed server, unless someone else has done so already. There may be no server at all. */
    method NextServer(failed: string) returns (server: Option<string>)
      requires Valid()
      modifies this`current, this`next
      ensures Valid() && server == if servers == [] then None else Some(current)
      ensures next == if |servers| > 1 && failed == old(current) then After(old(next), |servers|) else old(next)
      ensures |servers| > 1 && failed == old(current) ==> current == servers[old(next) % |servers|]
    {
      if servers == [] {
        return None;
      }
      if |servers| == 1 || failed != current {
        return Some(current);
      }
      var k := if next >= |servers| then 0 else next;
      current := servers[k];
      next := k + 1;
      server := Some(current);
    }

    /** However many dialers report one failure, the index moves once, if there is anywhere to move. */
    method ReportFailure(failed: string, dialers: nat)
      requires Valid() && failed == current && dialers > 0
      modifies this`current, this`next
      ensures Valid()
      ensures |servers| > 1 ==> next == After(old(next), |servers|) && current != failed
      ensures |servers| <= 1 ==> next == old(next)
    {
      var server := NextServer(failed);
      for i := 1 to dialers
        invariant Valid()
        invariant |servers| > 1 ==> next == After(old(next), |servers|) && current != failed
        invariant |servers| <= 1 ==> next == old(next)
      {
        server := NextServer(failed);
      }
    }

    /**
     Dial from the current server on until one answers. `answers` says which servers do, `cancelled`
     whether the caller has given up after so many dials. If neither happens, every server has been
     dialled exactly once, and the index and the current server are where they were. Without servers
     the empty address is dialled, once.
     */
    method DialContext(answers: string -> bool, cancelled: nat -> bool) returns (r: Dial, tried: seq<string>)
      requires Valid()
      modifies this`current, this`next
      ensures Valid() && |tried| > 0
      ensures servers == [] ==> tried == [""] && r == if answers("") then Connected("") else NoServers
      ensures servers != [] ==>
                && |tried| <= |servers| && NoRepeats(tried) && InRotation(tried, servers, old(next))
                && InVain(tried[..|tried| - 1], answers, cancelled)
      ensures servers != [] ==>
                forall i :: 0 <= i < |tried| ==> tried[i] == servers[(old(next) - 1 + i) % |servers|]
      ensures servers != [] ==>
              match r
              case NoServers => false
              case Connected(server) => server == current == tried[|tried| - 1] && answers(server)
              case Cancelled => !answers(tried[|tried| - 1]) && cancelled(|tried|)
              case AllFailed =>
                && InVain(tried, answers, cancelled)
                && |tried| == |servers| && (forall x :: x in tried <==> x in servers)
                && current == old(current) && next == old(next)
    {
      hide NoRepeats, InOrder, InRotation, InVain;
      if servers == [] {
        r, tried := if answers(current) then Connected(current) else NoServers, [current];
        return;
      }
      tried := [];
      var start := next;
      ghost var begin := next;
      NoneTried(servers, begin, answers, cancelled);
      while true
        invariant Valid() && servers != [] && start == begin && |tried| < |servers|
        invariant next == Place(begin, |tried|, |servers|)
        invariant InRotation(tried, servers, begin) && InVain(tried, answers, cancelled)
        decreases |servers| - |tried|
      {
        var target := current;
        OneTried(tried, target, servers, begin, answers, cancelled);
        tried := tried + [target];
        if answers(target) {
          r := Connected(target);
          break;
        }
        var server := NextServer(target);
        if cancelled(|tried|) {
          r := Cancelled;
          break;
        }
        var max := |servers|;
        if start > max {
          start := max;
        }
        if next == start {
          r := AllFailed;
          break;
        }
      }
      RoundDistinct(servers, begin, tried);
      InTurn(servers, begin, tried);
    }
  }

  /** A step that holds the lock. */
  datatype Step = Set(input: seq<string>) | Report(failed: string)

  function Entries(s: seq<string>): set<string> {
    set x | x in s && x != ""
  }

  /** The addresses of the last step that set any. */
  function LastSet(initial: set<string>, steps: seq<Step>): set<string> {
    if steps == [] then initial
    else
      var last := steps[|steps| - 1];
      if last.Set? && Entries(last.input) != {} then Entries(last.input) else LastSet(initial, steps[..|steps| - 1])
  }

  /** Any interleaving of locked steps keeps the balancer valid and serves the addresses set last. */
  method RunSteps(lb: Balancer, steps: seq<Step>)
    requires lb.Valid()
    modifies lb
    ensures lb.Valid() && Entries(lb.addresses) == LastSet(Entries(old(lb.addresses)), steps)
  {
    for n := 0 to |steps|
      invariant lb.Valid() && Entries(lb.addresses) == LastSet(Entries(old(lb.addresses)), steps[..n])
    {
      assert steps[..n + 1][..n] == steps[..n];
      match steps[n] {
        case Set(input) =>
          var changed := lb.SetServers(input);
          if x :| x in input && x != "" {
            assert x in Entries(input);
            assert Entries(lb.addresses) == Entries(input);
          } else {
            assert Entries(input) == {};
          }
        case Report(failed) =>
          var server := lb.NextServer(failed);
      }
    }
    assert steps[..|steps|] == steps;
  }
}
