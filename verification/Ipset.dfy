/**
 The ipset handler: a cache of the sets the agent believes to exist, and the refresh that fills a
 temporary set, swaps it with the live one and destroys it.
 */
module Ipset {
  import opened Netfilter
  import opened IpBlocks
  import opened Kernel

  /** What the temporary set holds before the entries are added. */
  function Base(sets: Sets, temp: string, kind: Kind): IpSet {
    if temp in sets then sets[temp] else EmptySet(kind)
  }

  /**
   The live set exists and has the type of the temporary one, the entries fit, and nothing refers
   to the temporary set.
   */
  predicate CanRefresh(st: State, name: string, temp: string, kind: Kind, entries: seq<SetEntry>) {
    var base := Base(st.sets, temp, kind);
    name in st.sets && KindOf(st.sets[name]) == KindOf(base) && AllFit(KindOf(base), entries) &&
      !SetReferenced(st.chains, temp)
  }

  /** What a refresh leaves in the live set: the entries, on top of whatever the temporary set held before. */
  function Refreshed(sets: Sets, temp: string, kind: Kind, entries: seq<SetEntry>): (r: IpSet)
    ensures KindOf(r) == KindOf(Base(sets, temp, kind))
  {
    var base := Base(sets, temp, kind);
    if AllFit(KindOf(base), entries) then AddAll(base, entries)
    else base  // some entry cannot be added, so that this is never installed
  }

  /** At any point of a refresh of `name` through `temp`. */
  ghost predicate MidRefresh(before: State, now: State, name: string, temp: string, filled: IpSet) {
    && now.chains == before.chains
    && now.sets - {name, temp} == before.sets - {name, temp}
    && (name in now.sets <==> name in before.sets)
    && (name in before.sets ==> now.sets[name] == before.sets[name] || now.sets[name] == filled)
    && (temp in before.sets && SetReferenced(before.chains, temp) ==> temp in now.sets)
  }

  /** While the temporary set is filled, it alone may differ. */
  ghost predicate FilledSoFar(before: State, now: State, temp: string) {
    now.chains == before.chains &&
      (now.sets == before.sets || (temp in now.sets && now.sets == before.sets[temp := now.sets[temp]]))
  }

  lemma TempOnly(before: State, now: State, name: string, temp: string, filled: IpSet)
    requires FilledSoFar(before, now, temp) && name != temp
    ensures MidRefresh(before, now, name, temp, filled)
  {
  }

  /** The keys that decide membership: addresses of a hash:ip set, prefixes of a hash:net set. */
  ghost predicate Covers(es: seq<SetEntry>, s: IpSet)
    requires AllFit(KindOf(s), es)
  {
    match s
    case HashIp(ips) => forall a :: a in ips ==> Host(a) in es
    case HashNet(nets) => forall p :: p in nets ==> exists e :: e in es && e.Block? && PrefixOf(e.entry.net) == p
  }

  lemma {:induction false} AddAllHosts(ips: set<Addr>, es: seq<SetEntry>)
    requires AllFit(IpKind, es)
    ensures AddAll(HashIp(ips), es).HashIp? && AddAll(HashIp({}), es).HashIp?
    ensures AddAll(HashIp(ips), es).ips == ips + AddAll(HashIp({}), es).ips
    ensures forall a :: a in AddAll(HashIp({}), es).ips <==> Host(a) in es
  {
    if es != [] {
      var front, last := es[..|es| - 1], es[|es| - 1];
      AddAllHosts(ips, front);
      assert forall e :: e in es <==> e in front || e == last;
    }
  }

  lemma AddLastNet(s: IpSet, es: seq<SetEntry>)
    requires s.HashNet? && es != [] && AllFit(NetKind, es)
    ensures var last := es[|es| - 1];
            && last.Block? && last.entry.net.len <= 32
            && AddAll(s, es) == HashNet(AddAll(s, es[..|es| - 1]).nets[PrefixOf(last.entry.net) := last.entry.nomatch])
  {
    hide PrefixOf;
    assert es[|es| - 1] in es;
  }

  lemma {:induction false} NetsMerge(nets: map<Prefix, bool>, es: seq<SetEntry>)
    requires AllFit(NetKind, es)
    ensures AddAll(HashNet(nets), es).nets == nets + AddAll(HashNet(map[]), es).nets
  {
    hide PrefixOf;
    if es != [] {
      var front, last := es[..|es| - 1], es[|es| - 1];
      NetsMerge(nets, front);
      AddLastNet(HashNet(nets), es);
      AddLastNet(HashNet(map[]), es);
      hide AddAll;
      var b := AddAll(HashNet(map[]), front).nets;
      assert (nets + b)[PrefixOf(last.entry.net) := last.entry.nomatch] ==
        nets + b[PrefixOf(last.entry.net) := last.entry.nomatch];
    }
  }

  lemma {:induction false} NetKeys(es: seq<SetEntry>, p: Prefix)
    requires AllFit(NetKind, es)
    ensures p in AddAll(HashNet(map[]), es).nets <==> exists e :: e in es && PrefixOf(e.entry.net) == p
  {
    hide PrefixOf;
    if es != [] {
      var front, last := es[..|es| - 1], es[|es| - 1];
      NetKeys(front, p);
      AddLastNet(HashNet(map[]), es);
      hide AddAll;
      assert last in es && forall e :: e in es <==> e in front || e == last;
    }
  }

  lemma AddAllFromScratch(s: IpSet, es: seq<SetEntry>)
    requires AllFit(KindOf(s), es)
    ensures match s
            case HashIp(ips) => AddAll(s, es).ips == ips + AddAll(HashIp({}), es).ips &&
              forall a :: a in AddAll(HashIp({}), es).ips <==> Host(a) in es
            case HashNet(nets) => AddAll(s, es).nets == nets + AddAll(HashNet(map[]), es).nets
                                  && forall p :: p in AddAll(HashNet(map[]), es).nets <==>
                                    exists e :: e in es && PrefixOf(e.entry.net) == p
  {
    hide PrefixOf, AddAll;
    match s {
      case HashIp(ips) => AddAllHosts(ips, es);
      case HashNet(nets) =>
        NetsMerge(nets, es);
        forall p
          ensures p in AddAll(HashNet(map[]), es).nets <==> exists e :: e in es && PrefixOf(e.entry.net) == p
        {
          NetKeys(es, p);
        }
    }
  }

  /**
   A refresh installs exactly the requested entries if and only if every member that an earlier,
   interrupted refresh left in the temporary set is requested again. An absent temporary set is
   the case the code counts on.
   */
  lemma RefreshExact(sets: Sets, temp: string, kind: Kind, entries: seq<SetEntry>)
    requires AllFit(kind, entries)
    ensures Refreshed(sets, temp, kind, entries) == Contents(kind, entries) <==>
            (temp in sets ==> KindOf(sets[temp]) == kind && Covers(entries, sets[temp]))
  {
    if temp in sets && KindOf(sets[temp]) == kind {
      AddAllFromScratch(sets[temp], entries);
      var filled, want := Refreshed(sets, temp, kind, entries), Contents(kind, entries);
      match sets[temp] {
        case HashIp(ips) =>
          assert filled.ips == ips + want.ips;
          assert filled == want <==> ips <= want.ips;
        case HashNet(nets) =>
          assert filled.nets == nets + want.nets;
          if Covers(entries, sets[temp]) {
            assert nets.Keys <= want.nets.Keys;
            assert filled.nets == want.nets;
          }
      }
    }
  }

  /** An interrupted refresh can leak a member: a leftover address survives into the next refresh. */
  lemma LeftoverLeaks(old_: Addr, new_: Addr)
    requires old_ != new_
    ensures InSet(Refreshed(map["S-" := HashIp({old_})], "S-", IpKind, [Host(new_)]), old_)
    ensures !InSet(Contents(IpKind, [Host(new_)]), old_)
  {
    AddAllFromScratch(HashIp({old_}), [Host(new_)]);
  }

  class Handler {
    const kernel: Kernel
    var cache: map<string, Kind>

    constructor (k: Kernel)
      ensures kernel == k && cache == map[]
    {
      kernel := k;
      cache := map[];
    }

    /** Ensure that a set exists on the system. A set that exists already keeps its contents. */
    method Create(name: string, kind: Kind) returns (s: Status)
      modifies this, kernel
      ensures cache == if name in old(cache) then old(cache) else old(cache)[name := kind]
      ensures kernel.chains == old(kernel.chains)
      ensures s == Ok ==>
                kernel.sets == if name in old(kernel.sets) then old(kernel.sets)
                  else old(kernel.sets)[name := EmptySet(kind)]
      ensures s != Ok ==> kernel.sets == old(kernel.sets)
      ensures old(kernel.log) <= kernel.log
      ensures forall i :: |old(kernel.log)| <= i < |kernel.log| ==> kernel.log[i] == kernel.Now()
      ensures old(kernel.faults) <= kernel.faults && (kernel.faults == old(kernel.faults) ==> s == Ok)
    {
      if name !in cache {
        cache := cache[name := kind];
      }
      var active;
      s, active := kernel.IsActive(name);
      if s == Ok && !active {
        s := kernel.CreateSet(name, kind);
      }
    }

    /** Create the temporary set and add the entries one by one. */
    method Fill(temp: string, kind: Kind, entries: seq<SetEntry>, ghost name: string,
                ghost filled: IpSet) returns (s: Status)
      requires name != temp
      modifies this, kernel
      ensures cache == if temp in old(cache) then old(cache) else old(cache)[temp := kind]
      ensures old(kernel.log) <= kernel.log
      ensures MidRefresh(old(kernel.Now()), kernel.Now(), name, temp, filled)
      ensures forall i :: |old(kernel.log)| <= i < |kernel.log| ==>
                MidRefresh(old(kernel.Now()), kernel.log[i], name, temp, filled)
      ensures s == Ok ==> kernel.sets == old(kernel.sets)[temp := Refreshed(old(kernel.sets), temp, kind, entries)]
      ensures s == Ok ==> AllFit(KindOf(Refreshed(old(kernel.sets), temp, kind, entries)), entries)
      ensures old(kernel.faults) <= kernel.faults
      ensures kernel.faults == old(kernel.faults) && AllFit(KindOf(Base(old(kernel.sets), temp, kind)), entries) ==>
                s == Ok
    {
      hide MidRefresh;
      ghost var before := kernel.Now();
      ghost var base := Base(kernel.sets, temp, kind);
      s := Create(temp, kind);
      TempOnly(before, kernel.Now(), name, temp, filled);
      var i := 0;
      while s == Ok && i < |entries|
        invariant 0 <= i <= |entries|
        invariant s == Ok ==>
                    AllFit(KindOf(base), entries[..i]) && kernel.sets == before.sets[temp := AddAll(base, entries[..i])]
        invariant FilledSoFar(before, kernel.Now(), temp)
        invariant cache == if temp in old(cache) then old(cache) else old(cache)[temp := kind]
        invariant old(kernel.log) <= kernel.log
        invariant old(kernel.faults) <= kernel.faults
        invariant kernel.faults == old(kernel.faults) && AllFit(KindOf(base), entries) ==> s == Ok
        invariant MidRefresh(before, kernel.Now(), name, temp, filled)
        invariant forall j :: |old(kernel.log)| <= j < |kernel.log| ==>
                    MidRefresh(before, kernel.log[j], name, temp, filled)
      {
        s := kernel.AddEntry(temp, entries[i]);
        assert entries[..i + 1][..i] == entries[..i];
        TempOnly(before, kernel.Now(), name, temp, filled);
        i := i + 1;
      }
      if s == Ok {
        assert entries[..i] == entries;
      }
    }

    /**
     Replace the members of `name`. `suffix` is what the temporary set's name adds: "-" for plain
     entries, "-temp" for entries with options. The contract covers every command: the live set
     holds its old members or the complete new ones, and every third set is left alone.
     */
    method Refresh(name: string, entries: seq<SetEntry>, suffix: string) returns (s: Status)
      requires name in cache && suffix != []
      modifies this, kernel
      ensures old(kernel.log) <= kernel.log
      ensures var filled := Refreshed(old(kernel.sets), name + suffix, old(cache)[name], entries);
              && MidRefresh(old(kernel.Now()), kernel.Now(), name, name + suffix, filled)
              && (forall i :: |old(kernel.log)| <= i < |kernel.log| ==>
                    MidRefresh(old(kernel.Now()), kernel.log[i], name, name + suffix, filled))
              && (s == Ok ==>
                name in old(kernel.sets) && kernel.sets == old(kernel.sets)[name := filled] - {name + suffix})
      ensures s == Ok ==> AllFit(KindOf(kernel.sets[name]), entries)
      ensures s == Ok ==> cache == old(cache) - {name + suffix}
      ensures cache - {name + suffix} == old(cache) - {name + suffix}
      ensures old(kernel.faults) <= kernel.faults
      ensures kernel.faults == old(kernel.faults) &&
                CanRefresh(old(kernel.Now()), name, name + suffix, old(cache)[name], entries) ==>
                s == Ok
    {
      hide Refreshed, AllFit, SetReferenced;
      var temp := name + suffix;
      ghost var before := kernel.Now();
      ghost var filled := Refreshed(kernel.sets, temp, cache[name], entries);
      assert |temp| > |name|;
      s := Fill(temp, cache[name], entries, name, filled);
      if s == Ok {
        s := kernel.SwapSets(name, temp);
      }
      if s == Ok {
        s := kernel.DestroySet(temp);
        if s == Ok {
          cache := cache - {temp};
        }
      }
    }
  }
}
