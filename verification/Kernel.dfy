/**
 The kernel as the iptables and ipset commands see it. Every command may fail, and a command that
 fails changes nothing. `log` records the state after every command that can change it, so that a
 contract can speak of every intermediate step.
 */
module Kernel {
  import opened Netfilter
  import opened IpBlocks

  const FORWARD := "FORWARD"
  const OUTPUT := "OUTPUT"

  datatype Status =
    | Ok
    | Exit1   // iptables exit status 1: among others, the chain exists already
    | InUse   // refused because a rule still refers to it
    | Failed

  datatype Line = Header(chain: string) | Spec(rule: Rule)

  datatype Kind = IpKind | NetKind

  datatype SetEntry = Host(addr: Addr) | Block(entry: Entry)

  function EmptySet(kind: Kind): IpSet {
    match kind case IpKind => HashIp({}) case NetKind => HashNet(map[])
  }

  function KindOf(s: IpSet): Kind {
    if s.HashIp? then IpKind else NetKind
  }

  predicate Fits(kind: Kind, e: SetEntry) {
    match e
    case Host(_) => kind == IpKind
    case Block(x) => kind == NetKind && 1 <= x.net.len <= 32
  }

  predicate AllFit(kind: Kind, es: seq<SetEntry>) {
    forall e :: e in es ==> Fits(kind, e)
  }

  function With(s: IpSet, e: SetEntry): (r: IpSet)
    requires Fits(KindOf(s), e)
    ensures KindOf(r) == KindOf(s)
  {
    match e
    case Host(a) => HashIp(s.ips + {a})
    case Block(x) => HashNet(s.nets[PrefixOf(x.net) := x.nomatch])
  }

  function AddAll(s: IpSet, es: seq<SetEntry>): (r: IpSet)
    requires AllFit(KindOf(s), es)
    ensures KindOf(r) == KindOf(s)
  {
    if es == [] then s else With(AddAll(s, es[..|es| - 1]), es[|es| - 1])
  }

  /** The set that holds exactly these entries. */
  function Contents(kind: Kind, es: seq<SetEntry>): IpSet
    requires AllFit(kind, es)
  {
    AddAll(EmptySet(kind), es)
  }

  predicate Referenced(chains: Chains, c: string) {
    exists k :: k in chains && exists r :: r in chains[k] && r.target == Jump(c)
  }

  predicate SetReferenced(chains: Chains, n: string) {
    exists k :: k in chains && exists r :: r in chains[k] && n in SetsOf(r)
  }

  /** The kernel takes a rule only when its jump target and its sets exist. */
  predicate Resolvable(st: State, r: Rule) {
    && (r.target.Jump? ==> r.target.chain in st.chains)
    && SetsOf(r) <= st.sets.Keys
  }

  /**
   The kernel's table and sets behind the commands. `log` has the state after every command that
   could change it. `faults` counts the replies that the state does not account for: a command that
   could have been carried out but was not.
   */
  class Kernel {
    var chains: Chains
    var sets: Sets
    ghost var log: seq<State>
    ghost var faults: nat

    constructor ()
      ensures chains == map[FORWARD := [], OUTPUT := []] && sets == map[] && log == [] && faults == 0
    {
      chains := map[FORWARD := [], OUTPUT := []];
      sets := map[];
      log, faults := [], 0;
    }

    function Now(): State
      reads this
    {
      State(chains, sets)
    }

    method NewChain(c: string) returns (s: Status)
      modifies this
      ensures sets == old(sets) && log == old(log) + [Now()]
      ensures s == Ok ==> c !in old(chains) && chains == old(chains)[c := []]
      ensures s != Ok ==> chains == old(chains)
      ensures old(faults) <= faults && (faults == old(faults) ==> s == if c in old(chains) then Exit1 else Ok)
    {
      s := *;
      if s == Ok && c in chains {
        s := Exit1;
      }
      if s != if c in chains then Exit1 else Ok {
        faults := faults + 1;
      }
      if s == Ok {
        chains := chains[c := []];
      }
      log := log + [Now()];
    }

    method Exists(c: string, r: Rule) returns (s: Status, found: bool)
      modifies this`faults
      ensures s == Ok ==> (found <==> c in chains && r in chains[c])
      ensures old(faults) <= faults && (faults == old(faults) ==> s == Ok)
    {
      s := *;
      if s != Ok {
        faults := faults + 1;
      }
      found := c in chains && r in chains[c];
    }

    method Insert(c: string, r: Rule) returns (s: Status)
      modifies this
      ensures sets == old(sets) && log == old(log) + [Now()]
      ensures s == Ok ==> c in old(chains) && Resolvable(old(Now()), r)
                          && chains == old(chains)[c := [r] + old(chains)[c]]
      ensures s != Ok ==> chains == old(chains)
      ensures old(faults) <= faults
      ensures faults == old(faults) ==> (s == Ok <==> c in old(chains) && Resolvable(old(Now()), r))
    {
      s := *;
      if s == Ok && (c !in chains || !Resolvable(Now(), r)) {
        s := Exit1;
      } else if s != Ok && c in chains && Resolvable(Now(), r) {
        faults := faults + 1;
      }
      if s == Ok {
        chains := chains[c := [r] + chains[c]];
      }
      log := log + [Now()];
    }

    method Append(c: string, r: Rule) returns (s: Status)
      modifies this
      ensures sets == old(sets) && log == old(log) + [Now()]
      ensures s == Ok ==> c in old(chains) && Resolvable(old(Now()), r)
                          && chains == old(chains)[c := old(chains)[c] + [r]]
      ensures s != Ok ==> chains == old(chains)
      ensures old(faults) <= faults
      ensures faults == old(faults) ==> (s == Ok <==> c in old(chains) && Resolvable(old(Now()), r))
    {
      s := *;
      if s == Ok && (c !in chains || !Resolvable(Now(), r)) {
        s := Exit1;
      } else if s != Ok && c in chains && Resolvable(Now(), r) {
        faults := faults + 1;
      }
      if s == Ok {
        chains := chains[c := chains[c] + [r]];
      }
      log := log + [Now()];
    }

    /** Delete by number; the first rule of a chain has number 1. */
    method DeleteRule(c: string, number: int) returns (s: Status)
      modifies this
      ensures sets == old(sets) && log == old(log) + [Now()]
      ensures s == Ok ==> c in old(chains) && 1 <= number <= |old(chains)[c]|
                          && chains == old(chains)[c := old(chains)[c][..number - 1] + old(chains)[c][number..]]
      ensures s != Ok ==> chains == old(chains)
      ensures old(faults) <= faults
      ensures faults == old(faults) ==> (s == Ok <==> c in old(chains) && 1 <= number <= |old(chains)[c]|)
      ensures s == Ok ==> faults == old(faults)
    {
      s := *;
      if s == Ok && (c !in chains || number < 1 || |chains[c]| < number) {
        s := Exit1;
      } else if s != Ok && c in chains && 1 <= number <= |chains[c]| {
        faults := faults + 1;
      }
      if s == Ok {
        chains := chains[c := chains[c][..number - 1] + chains[c][number..]];
      }
      log := log + [Now()];
    }

    method List(c: string) returns (s: Status, lines: seq<Line>)
      modifies this`faults
      ensures s == Ok ==> c in chains && |lines| == |chains[c]| + 1 && lines[0] == Header(c)
      ensures s == Ok ==> forall i :: 0 <= i < |chains[c]| ==> lines[i + 1] == Spec(chains[c][i])
      ensures s != Ok ==> lines == []
      ensures old(faults) <= faults && (faults == old(faults) ==> (s == Ok <==> c in chains))
    {
      s := *;
      if s == Ok && c in chains {
        var rules := chains[c];
        lines := [Header(c)] + seq(|rules|, i requires 0 <= i < |rules| => Spec(rules[i]));
      } else {
        if c in chains {
          faults := faults + 1;
        }
        s, lines := Exit1, [];
      }
    }

    /** Flush a chain, creating it when it is missing. */
    method ClearChain(c: string) returns (s: Status)
      modifies this
      ensures sets == old(sets) && log == old(log) + [Now()]
      ensures s == Ok ==> chains == old(chains)[c := []]
      ensures s != Ok ==> chains == old(chains)
      ensures old(faults) <= faults && (faults == old(faults) ==> s == Ok)
    {
      s := *;
      if s == Ok {
        chains := chains[c := []];
      } else {
        faults := faults + 1;
      }
      log := log + [Now()];
    }

    method DeleteChain(c: string) returns (s: Status)
      modifies this
      ensures sets == old(sets) && log == old(log) + [Now()]
      ensures s == Ok ==> c in old(chains) && old(chains)[c] == [] && !Referenced(old(chains), c)
      ensures s == Ok ==> chains == old(chains) - {c}
      ensures s != Ok ==> chains == old(chains)
      ensures s == InUse ==> Referenced(old(chains), c)
      ensures old(faults) <= faults
      ensures faults == old(faults) ==>
                (s == Ok <==> c in old(chains) && old(chains)[c] == [] && !Referenced(old(chains), c))
    {
      s := *;
      if s == Ok || s == InUse {
        if c !in chains || chains[c] != [] {
          s := Failed;
        } else if Referenced(chains, c) {
          s := InUse;
        } else {
          s := Ok;
          chains := chains - {c};
        }
      }
      if s != Ok && c in chains && chains[c] == [] && !Referenced(chains, c) {
        faults := faults + 1;
      }
      log := log + [Now()];
    }

    method ListChains() returns (s: Status, names: set<string>)
      modifies this`faults
      ensures s == Ok ==> names == chains.Keys
      ensures s != Ok ==> names == {}
      ensures faults == old(faults) + if s == Ok then 0 else 1
    {
      s := *;
      if s != Ok {
        faults := faults + 1;
      }
      names := if s == Ok then chains.Keys else {};
    }

    method IsActive(n: string) returns (s: Status, active: bool)
      modifies this`faults
      ensures s == Ok ==> (active <==> n in sets)
      ensures old(faults) <= faults && (faults == old(faults) ==> s == Ok)
    {
      s := *;
      if s != Ok {
        faults := faults + 1;
      }
      active := n in sets;
    }

    /** `create -exist`: an existing set of the same type is left as it is. */
    method CreateSet(n: string, kind: Kind) returns (s: Status)
      modifies this
      ensures chains == old(chains) && log == old(log) + [Now()]
      ensures s == Ok ==> sets == if n in old(sets) then old(sets) else old(sets)[n := EmptySet(kind)]
      ensures s == Ok ==> KindOf(sets[n]) == kind
      ensures s != Ok ==> sets == old(sets)
      ensures old(faults) <= faults
      ensures faults == old(faults) ==> (s == Ok <==> (n in old(sets) ==> KindOf(old(sets)[n]) == kind))
    {
      s := *;
      if s != Ok && (n in sets ==> KindOf(sets[n]) == kind) {
        faults := faults + 1;
      }
      if s == Ok {
        if n !in sets {
          sets := sets[n := EmptySet(kind)];
        } else if KindOf(sets[n]) != kind {
          s := Failed;
        }
      }
      log := log + [Now()];
    }

    method AddEntry(n: string, e: SetEntry) returns (s: Status)
      modifies this
      ensures chains == old(chains) && log == old(log) + [Now()]
      ensures s == Ok ==> n in old(sets) && Fits(KindOf(old(sets)[n]), e)
                          && sets == old(sets)[n := With(old(sets)[n], e)]
      ensures s != Ok ==> sets == old(sets)
      ensures old(faults) <= faults
      ensures faults == old(faults) ==> (s == Ok <==> n in old(sets) && Fits(KindOf(old(sets)[n]), e))
    {
      s := *;
      if s != Ok && n in sets && Fits(KindOf(sets[n]), e) {
        faults := faults + 1;
      }
      if s == Ok {
        if n in sets && Fits(KindOf(sets[n]), e) {
          sets := sets[n := With(sets[n], e)];
        } else {
          s := Failed;
        }
      }
      log := log + [Now()];
    }

    /** Exchange the contents of two sets of one type. */
    method SwapSets(a: string, b: string) returns (s: Status)
      modifies this
      ensures chains == old(chains) && log == old(log) + [Now()]
      ensures s == Ok ==> a in old(sets) && b in old(sets) && KindOf(old(sets)[a]) == KindOf(old(sets)[b])
                          && sets == old(sets)[a := old(sets)[b]][b := old(sets)[a]]
      ensures s != Ok ==> sets == old(sets)
      ensures old(faults) <= faults
      ensures faults == old(faults) ==>
                (s == Ok <==> a in old(sets) && b in old(sets) && KindOf(old(sets)[a]) == KindOf(old(sets)[b]))
    {
      s := *;
      if s != Ok && a in sets && b in sets && KindOf(sets[a]) == KindOf(sets[b]) {
        faults := faults + 1;
      }
      if s == Ok {
        if a in sets && b in sets && KindOf(sets[a]) == KindOf(sets[b]) {
          sets := sets[a := sets[b]][b := sets[a]];
        } else {
          s := Failed;
        }
      }
      log := log + [Now()];
    }

    method DestroySet(n: string) returns (s: Status)
      modifies this
      ensures chains == old(chains) && log == old(log) + [Now()]
      ensures s == Ok ==> n in old(sets) && !SetReferenced(chains, n) && sets == old(sets) - {n}
      ensures s != Ok ==> sets == old(sets)
      ensures s == InUse ==> SetReferenced(chains, n)
      ensures old(faults) <= faults
      ensures faults == old(faults) ==> (s == Ok <==> n in old(sets) && !SetReferenced(chains, n))
    {
      s := *;
      if s == Ok || s == InUse {
        if n !in sets {
          s := Failed;
        } else if SetReferenced(chains, n) {
          s := InUse;
        } else {
          s := Ok;
          sets := sets - {n};
        }
      }
      if s != Ok && n in sets && !SetReferenced(chains, n) {
        faults := faults + 1;
      }
      log := log + [Now()];
    }

    method SaveSets() returns (s: Status, names: set<string>)
      modifies this`faults
      ensures s == Ok ==> names == sets.Keys
      ensures faults == old(faults) + if s == Ok then 0 else 1
    {
      s := *;
      if s != Ok {
        faults := faults + 1;
      }
      names := sets.Keys;
    }
  }
}
