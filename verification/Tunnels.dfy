/** The tunnels that an agent keeps to the supervisors. */
module Tunnels {
  import opened Basics

  function OnPort(host: string -> Option<string>, join: (string, string) -> string, port: string,
                  input: seq<string>): seq<string> {
    if input == [] then []
    else
      var h := host(input[|input| - 1]);
      OnPort(host, join, port, input[..|input| - 1]) + if h.Some? then [join(h.value, port)] else []
  }

  /** What a subset of addresses says, one way: the port replaced on each address that has a host. */
  lemma {:induction false} OnPortMembers(host: string -> Option<string>, join: (string, string) -> string, port: string,
                                         input: seq<string>, y: string)
    ensures y in OnPort(host, join, port, input) <==>
              exists x :: x in input && host(x).Some? && join(host(x).value, port) == y
  {
    if input != [] {
      OnPortMembers(host, join, port, input[..|input| - 1], y);
      assert input == input[..|input| - 1] + [input[|input| - 1]];
    }
  }

  /** The part of the proxy that knows the supervisors. Splitting and joining of addresses are parameters. */
  class Proxy {
    const fallback: string
    const port: string
    const host: string -> Option<string>
    const join: (string, string) -> string
    var addresses: seq<string>
    var apiServerEnabled: bool

    constructor (fallback: string, port: string, host: string -> Option<string>, join: (string, string) -> string)
      ensures this.fallback == fallback && this.port == port && this.host == host && this.join == join
      ensures addresses == [] && !apiServerEnabled
    {
      this.fallback, this.port, this.host, this.join := fallback, port, host, join;
      addresses, apiServerEnabled := [], false;
    }

    function SupervisorAddresses(): (r: seq<string>)
      reads this
      ensures r != []
    {
      Supervisors(addresses)
    }

    function Supervisors(stored: seq<string>): (r: seq<string>)
      ensures r != []
    {
      if |stored| > 0 then stored else [fallback]
    }

    /** What is stored after an update. */
    function Told(input: seq<string>): seq<string>
      reads this`apiServerEnabled
    {
      if apiServerEnabled then OnPort(host, join, port, input) else input
    }

    /** What is stored after watch events, each of which is ignored when it names the supervisors in use. */
    function Heard(stored: seq<string>, events: seq<seq<string>>): seq<string>
      reads this`apiServerEnabled
    {
      if events == [] then stored
      else
        var before, e := Heard(stored, events[..|events| - 1]), events[|events| - 1];
        if e == Supervisors(before) then before else Told(e)
    }

    /** Put the supervisor port on every address; addresses that cannot be split are dropped. */
    method SetSupervisorPort(input: seq<string>) returns (result: seq<string>)
      ensures result == OnPort(host, join, port, input)
    {
      result := [];
      for i := 0 to |input|
        invariant result == OnPort(host, join, port, input[..i])
      {
        assert input[..i + 1][..i] == input[..i];
        var h := host(input[i]);
        if h.Some? {
          result := result + [join(h.value, port)];
        }
      }
      assert input[..|input|] == input;
    }

    method Update(input: seq<string>)
      modifies this`addresses
      ensures addresses == Told(input)
      ensures !apiServerEnabled ==> addresses == input
      ensures apiServerEnabled ==>
                forall y :: y in addresses <==>
                  exists x :: x in input && host(x).Some? && join(host(x).value, port) == y
    {
      forall y
        ensures y in OnPort(host, join, port, input) <==>
                exists x :: x in input && host(x).Some? && join(host(x).value, port) == y
      {
        OnPortMembers(host, join, port, input, y);
      }
      var supervisors := input;
      if apiServerEnabled {
        supervisors := SetSupervisorPort(input);
      }
      addresses := supervisors;
    }
  }

  function Wanted(addresses: seq<string>): set<string> {
    set a | a in addresses
  }

  /**
   Where the tunnels are to go when these addresses are given: to each of them, or to their hosts on the
   supervisor port when the API server is proxied; and to the fallback when that leaves none.
   */
  ghost function Destinations(proxy: Proxy, given: seq<string>): set<string>
    reads proxy`apiServerEnabled
  {
    var found :=
      if proxy.apiServerEnabled then
        set x | x in given && proxy.host(x).Some? :: proxy.join(proxy.host(x).value, proxy.port)
      else set x | x in given;
    if found == {} then {proxy.fallback} else found
  }

  lemma ToldDestinations(proxy: Proxy, given: seq<string>)
    ensures Wanted(proxy.Supervisors(proxy.Told(given))) == Destinations(proxy, given)
  {
    var told := proxy.Told(given);
    forall y
      ensures y in OnPort(proxy.host, proxy.join, proxy.port, given) <==>
              exists x :: x in given && proxy.host(x).Some? && proxy.join(proxy.host(x).value, proxy.port) == y
    {
      OnPortMembers(proxy.host, proxy.join, proxy.port, given, y);
    }
    var found :=
      if proxy.apiServerEnabled then
        set x | x in given && proxy.host(x).Some? :: proxy.join(proxy.host(x).value, proxy.port)
      else set x | x in given;
    assert Wanted(told) == found;
    assert told != [] ==> told[0] in found;
  }

  lemma GivenDestinations(proxy: Proxy, given: seq<string>)
    requires given != []
    ensures !proxy.apiServerEnabled ==> Destinations(proxy, given) == Wanted(given)
  {
    assert given[0] in Wanted(given);
  }

  /** Every tunnel ever started is either live under one address or was cancelled once. */
  ghost predicate Accounted(live: map<string, nat>, cancelled: seq<nat>, next: nat) {
    && NoRepeats(cancelled)
    && (forall a, b :: a in live && b in live && a != b ==> live[a] != live[b])
    && (forall a :: a in live ==> live[a] < next && live[a] !in cancelled)
    && (forall t :: t in cancelled ==> t < next)
    && forall t: nat :: t < next ==> t in cancelled || exists a :: a in live && live[a] == t
  }

  /** The live tunnels by address, and the tunnels that were told to stop, in order. */
  datatype View = View(live: map<string, nat>, cancelled: seq<nat>)

  /** Exactly the tunnels to these addresses were cancelled, each once; the rest were not touched. */
  ghost predicate Dropped(a: View, b: View, gone: set<string>) {
    && gone <= a.live.Keys && b.live == a.live - gone
    && a.cancelled <= b.cancelled && |b.cancelled| == |a.cancelled| + |gone|
    && forall x :: x in gone ==> a.live[x] in b.cancelled[|a.cancelled|..]
  }

  lemma DropNone(a: View)
    ensures Dropped(a, a, {})
  {
  }

  lemma DropOne(a: View, b: View, gone: set<string>, x: string)
    requires Dropped(a, b, gone) && x in a.live && x !in gone
    ensures x in b.live
    ensures Dropped(a, View(b.live - {x}, b.cancelled + [b.live[x]]), gone + {x})
  {
    var last := b.cancelled + [b.live[x]];
    assert last[|a.cancelled|..] == b.cancelled[|a.cancelled|..] + [b.live[x]];
    assert a.live - gone - {x} == a.live - (gone + {x});
  }

  lemma DropNext(a: View, b: View, all: set<string>, todo: set<string>, x: string)
    requires all <= a.live.Keys && x in todo && todo <= all && Dropped(a, b, all - todo)
    ensures x in b.live && Dropped(a, View(b.live - {x}, b.cancelled + [b.live[x]]), all - (todo - {x}))
  {
    hide Dropped;
    DropOne(a, b, all - todo, x);
    assert all - (todo - {x}) == all - todo + {x};
  }

  /**
   From one event to the next a kept address keeps its tunnel, which is not cancelled, and exactly the
   tunnels to dropped addresses are cancelled, each once.
   */
  ghost predicate Changed(a: View, b: View) {
    && (forall x :: x in a.live && x in b.live ==> b.live[x] == a.live[x] && b.live[x] !in b.cancelled)
    && a.cancelled <= b.cancelled && |b.cancelled| == |a.cancelled| + |a.live.Keys - b.live.Keys|
    && forall x :: x in a.live && x !in b.live ==> a.live[x] in b.cancelled[|a.cancelled|..]
  }

  /** Adding tunnels and then dropping those to unwanted addresses. */
  lemma AddThenDrop(a: View, mid: View, b: View, wanted: set<string>, next: nat)
    requires mid.cancelled == a.cancelled && mid.live.Keys == a.live.Keys + wanted
    requires forall x :: x in a.live ==> mid.live[x] == a.live[x]
    requires Dropped(mid, b, mid.live.Keys - wanted) && Accounted(b.live, b.cancelled, next)
    ensures Changed(a, b) && b.live.Keys == wanted
  {
    assert a.live.Keys - b.live.Keys == mid.live.Keys - wanted;
  }

  lemma SameView(a: View, next: nat)
    requires Accounted(a.live, a.cancelled, next)
    ensures Changed(a, a)
  {
    assert a.live.Keys - a.live.Keys == {};
  }

  /** What one event does: nothing, if it names the supervisors in use, or the tunnels go where it says. */
  ghost predicate Obeyed(proxy: Proxy, a: View, e: seq<string>, b: View)
    reads proxy`apiServerEnabled
  {
    b.live.Keys == Destinations(proxy, e) || (proxy.apiServerEnabled && b == a && b.live.Keys == set x | x in e)
  }

  /** What an agent goes through, event by event, with the supervisors it is told about. */
  ghost predicate Follows(proxy: Proxy, stored: seq<string>, events: seq<seq<string>>, views: seq<View>)
    reads proxy`apiServerEnabled
  {
    && |views| == |events| + 1
    && (forall i :: 0 <= i < |views| ==>
      views[i].live.Keys == Wanted(proxy.Supervisors(proxy.Heard(stored, events[..i]))))
    && forall i :: 0 < i < |views| ==>
         Changed(views[i - 1], views[i]) && Obeyed(proxy, views[i - 1], events[i - 1], views[i])
  }

  lemma FollowsNone(proxy: Proxy, stored: seq<string>, v: View)
    requires v.live.Keys == Wanted(proxy.Supervisors(stored))
    ensures Follows(proxy, stored, [], [v])
  {
  }

  lemma HeardNone(proxy: Proxy, stored: seq<string>)
    ensures proxy.Heard(stored, []) == stored
  {
  }

  lemma HeardOne(proxy: Proxy, stored: seq<string>, events: seq<seq<string>>, i: nat)
    requires i < |events|
    ensures var before, e := proxy.Heard(stored, events[..i]), events[i];
            proxy.Heard(stored, events[..i + 1]) == if e == proxy.Supervisors(before) then before else proxy.Told(e)
  {
    assert events[..i + 1][..i] == events[..i];
  }

  lemma FollowsOne(proxy: Proxy, stored: seq<string>, events: seq<seq<string>>, e: seq<string>, views: seq<View>,
                   v: View)
    requires Follows(proxy, stored, events, views) && Changed(views[|events|], v)
    requires Obeyed(proxy, views[|events|], e, v)
    requires v.live.Keys == Wanted(proxy.Supervisors(proxy.Heard(stored, events + [e])))
    ensures Follows(proxy, stored, events + [e], views + [v])
  {
    hide Changed, Wanted, Obeyed;
    var more, all := events + [e], views + [v];
    forall i | 0 <= i < |all|
      ensures all[i].live.Keys == Wanted(proxy.Supervisors(proxy.Heard(stored, more[..i])))
    {
      if i <= |events| {
        assert more[..i] == events[..i] && all[i] == views[i];
      } else {
        assert more[..i] == more;
      }
    }
    forall i | 0 < i < |all|
      ensures Changed(all[i - 1], all[i]) && Obeyed(proxy, all[i - 1], more[i - 1], all[i])
    {
      if i <= |events| {
        assert all[i - 1] == views[i - 1] && all[i] == views[i] && more[i - 1] == events[i - 1];
      }
    }
  }

  lemma StartAccounted(live: map<string, nat>, cancelled: seq<nat>, next: nat, address: string)
    requires Accounted(live, cancelled, next) && address !in live
    ensures Accounted(live[address := next], cancelled, next + 1)
  {
    var now := live[address := next];
    forall t: nat | t < next + 1
      ensures t in cancelled || exists a :: a in now && now[a] == t
    {
      if t == next {
        assert now[address] == t;
      } else if t !in cancelled {
        var a :| a in live && live[a] == t;
        assert now[a] == t;
      }
    }
  }

  lemma StopAccounted(live: map<string, nat>, cancelled: seq<nat>, next: nat, address: string)
    requires Accounted(live, cancelled, next) && address in live
    ensures Accounted(live - {address}, cancelled + [live[address]], next)
  {
    var now, gone := live - {address}, cancelled + [live[address]];
    forall t: nat | t < next
      ensures t in gone || exists a :: a in now && now[a] == t
    {
      if t !in cancelled && t != live[address] {
        var a :| a in live && live[a] == t;
        assert now[a] == t;
      } else {
        assert gone[|cancelled|] == live[address];
      }
    }
    forall i, j | 0 <= i < j < |gone|
      ensures gone[i] != gone[j]
    {
      assert i < |cancelled| && cancelled[i] in cancelled;
    }
  }

  /** Each tunnel has a number; `cancelled` lists the tunnels that were told to stop, in order. */
  class Agent {
    const proxy: Proxy
    var live: map<string, nat>
    var cancelled: seq<nat>
    var next: nat

    ghost predicate Valid()
      reads this
    {
      Accounted(live, cancelled, next)
    }

    ghost function Seen(): View
      reads this
    {
      View(live, cancelled)
    }

    constructor (proxy: Proxy)
      ensures Valid() && this.proxy == proxy && live == map[] && cancelled == []
    {
      this.proxy := proxy;
      live, cancelled, next := map[], [], 0;
    }

    method Connect(address: string)
      requires Valid() && address !in live
      modifies this`live, this`next
      ensures Valid() && live == old(live)[address := old(next)]
    {
      StartAccounted(live, cancelled, next, address);
      live := live[address := next];
      next := next + 1;
    }

    method Disconnect(address: string)
      requires Valid() && address in live
      modifies this`live, this`cancelled
      ensures Valid() && live == old(live) - {address} && cancelled == old(cancelled) + [old(live)[address]]
    {
      StopAccounted(live, cancelled, next, address);
      cancelled := cancelled + [live[address]];
      live := live - {address};
    }

    /** The tunnels that were live stay, and every address listed has one. */
    method ConnectAll(addresses: seq<string>)
      requires Valid()
      modifies this`live, this`next
      ensures Valid() && live.Keys == old(live).Keys + Wanted(addresses)
      ensures forall a :: a in old(live) ==> live[a] == old(live)[a]
    {
      for i := 0 to |addresses|
        invariant Valid() && live.Keys == old(live).Keys + Wanted(addresses[..i])
        invariant forall a :: a in old(live) ==> live[a] == old(live)[a]
      {
        assert addresses[..i + 1] == addresses[..i] + [addresses[i]];
        if addresses[i] !in live {
          Connect(addresses[i]);
        }
      }
      assert addresses[..|addresses|] == addresses;
    }

    /** The tunnels to other addresses are cancelled, each once; the rest are not touched. */
    method DisconnectOthers(valid: set<string>)
      requires Valid()
      modifies this`live, this`cancelled
      ensures Valid() && Dropped(old(Seen()), Seen(), old(live).Keys - valid)
    {
      hide Accounted, Dropped;
      var todo := live.Keys - valid;
      ghost var all, before := todo, Seen();
      DropNone(before);
      assert all - todo == {};
      while todo != {}
        invariant Valid() && todo <= all && Dropped(before, Seen(), all - todo)
        decreases todo
      {
        var a :| a in todo;
        DropNext(before, Seen(), all, todo, a);
        Disconnect(a);
        todo := todo - {a};
      }
      assert all - todo == all;
    }

    /** What Setup does before it starts watching. */
    method Setup(endpoint: Option<seq<string>>)
      requires Valid() && live == map[]
      modifies this`live, this`next, proxy`addresses
      ensures Valid() && live.Keys == Wanted(proxy.SupervisorAddresses()) && cancelled == old(cancelled)
      ensures endpoint.Some? ==> live.Keys == Destinations(proxy, endpoint.value)
      ensures endpoint.None? ==>
                live.Keys == if old(proxy.addresses) == [] then {proxy.fallback} else set x | x in old(proxy.addresses)
    {
      if endpoint.Some? {
        ToldDestinations(proxy, endpoint.value);
        proxy.Update(endpoint.value);
      }
      ConnectAll(proxy.SupervisorAddresses());
    }

    /** A watch event. Afterwards the live tunnels are exactly those to the supervisors. */
    method OnEvent(addresses: seq<string>)
      requires Valid() && live.Keys == Wanted(proxy.SupervisorAddresses())
      modifies this`live, this`cancelled, this`next, proxy`addresses
      ensures Valid() && live.Keys == Wanted(proxy.SupervisorAddresses()) && Changed(old(Seen()), Seen())
      ensures proxy.addresses ==
              if addresses == old(proxy.SupervisorAddresses()) then old(proxy.addresses) else proxy.Told(addresses)
      ensures addresses == old(proxy.SupervisorAddresses()) ==> Seen() == old(Seen())
      ensures addresses != old(proxy.SupervisorAddresses()) || !proxy.apiServerEnabled ==>
                live.Keys == Destinations(proxy, addresses)
      ensures Obeyed(proxy, old(Seen()), addresses, Seen())
    {
      hide Accounted, Changed, Dropped;
      if addresses == proxy.SupervisorAddresses() {
        SameView(Seen(), next);
        GivenDestinations(proxy, addresses);
        return;
      }
      ToldDestinations(proxy, addresses);
      proxy.Update(addresses);
      ConnectAll(proxy.SupervisorAddresses());
      var valid := Wanted(proxy.SupervisorAddresses());
      ghost var mid := Seen();
      DisconnectOthers(valid);
      AddThenDrop(old(Seen()), mid, Seen(), valid, next);
    }

    /** Over every run of events: after each of them the tunnels match the supervisors that were heard of. */
    method Watch(events: seq<seq<string>>) returns (ghost views: seq<View>)
      requires Valid() && live.Keys == Wanted(proxy.SupervisorAddresses())
      modifies this`live, this`cancelled, this`next, proxy`addresses
      ensures Valid() && proxy.addresses == proxy.Heard(old(proxy.addresses), events)
      ensures Follows(proxy, old(proxy.addresses), events, views) && |views| == |events| + 1
      ensures views[0] == old(Seen()) && views[|events|] == Seen()
    {
      hide Accounted, Changed, Wanted, Follows, Obeyed, Destinations, Proxy.Heard, Proxy.Told;
      views := [Seen()];
      FollowsNone(proxy, proxy.addresses, Seen());
      HeardNone(proxy, proxy.addresses);
      for i := 0 to |events|
        invariant Valid() && live.Keys == Wanted(proxy.SupervisorAddresses())
        invariant proxy.addresses == proxy.Heard(old(proxy.addresses), events[..i])
        invariant Follows(proxy, old(proxy.addresses), events[..i], views)
        invariant |views| == i + 1 && views[0] == old(Seen()) && views[i] == Seen()
      {
        HeardOne(proxy, old(proxy.addresses), events, i);
        OnEvent(events[i]);
        assert events[..i + 1] == events[..i] + [events[i]];
        FollowsOne(proxy, old(proxy.addresses), events[..i], events[i], views, Seen());
        views := views + [Seen()];
      }
      assert events[..|events|] == events;
    }
  }
}
