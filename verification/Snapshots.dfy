/** Scheduled etcd snapshots and their retention. */
module Snapshots {
  import opened Basics
  import opened Text

  const PREFIX := "etcd-snapshot-"

  function Name(time: nat): string {
    PREFIX + Itoa(time)
  }

  lemma {:induction false} LessUnderPrefix(p: string, a: string, b: string)
    ensures Less(p + a, p + b) <==> Less(a, b)
  {
    if p == "" {
      assert p + a == a && p + b == b;
    } else {
      LessUnderPrefix(p[1..], a, b);
      assert (p + a)[1..] == p[1..] + a && (p + b)[1..] == p[1..] + b;
    }
  }

  lemma {:induction false} LessExtends(a: string, b: string, x: string, y: string)
    requires |a| == |b| && Less(a, b)
    ensures Less(a + x, b + y)
  {
    if a[0] == b[0] {
      LessExtends(a[1..], b[1..], x, y);
      assert (a + x)[1..] == a[1..] + x && (b + y)[1..] == b[1..] + y;
    }
  }

  /** Numerals of one length are ordered as their numbers are. */
  lemma {:induction false} NumeralsOrdered(a: nat, b: nat)
    requires |Itoa(a)| == |Itoa(b)| && a < b
    ensures Less(Itoa(a), Itoa(b))
  {
    if b >= 10 {
      if a >= 10 {
        if a / 10 < b / 10 {
          NumeralsOrdered(a / 10, b / 10);
          LessExtends(Itoa(a / 10), Itoa(b / 10), [Digit(a % 10)], [Digit(b % 10)]);
        } else {
          assert a / 10 == b / 10;
          LessUnderPrefix(Itoa(a / 10), [Digit(a % 10)], [Digit(b % 10)]);
        }
      }
    }
  }

  function Power(k: nat): (p: nat)
    ensures p > 0
  {
    if k == 0 then 1 else 10 * Power(k - 1)
  }

  /** Dividing by ten and then by `m`. */
  lemma DivideTwice(b: nat, m: nat)
    requires m > 0
    ensures b / (10 * m) == b / 10 / m
  {
    var q, r := b / 10 / m, b / 10 % m;
    var t := 10 * r + b % 10;
    assert b == 10 * m * q + t && t < 10 * m;
    Quotient(b, 10 * m, q, t);
  }

  /** A longer numeral is not that of a smaller number. */
  lemma {:induction false} NumeralsGrow(a: nat, b: nat)
    requires a <= b
    ensures |Itoa(a)| <= |Itoa(b)|
  {
    if a >= 10 {
      NumeralsGrow(a / 10, b / 10);
    }
  }

  lemma {:induction false} LessSnoc(a: string, b: string, c: char)
    requires |a| <= |b|
    ensures a != b + [c] && (Less(a, b + [c]) <==> Less(a, b) || a == b)
  {
    if a == "" {
      assert (b + [c])[0] == if b == "" then c else b[0];
    } else {
      LessSnoc(a[1..], b[1..], c);
      assert (b + [c])[1..] == b[1..] + [c] && (b + [c])[0] == b[0];
      assert a == [a[0]] + a[1..] && b == [b[0]] + b[1..];
    }
  }

  /** A number is at most what is left of another one when that is cut to as many digits. */
  predicate AtMostHead(a: nat, b: nat) {
    |Itoa(a)| <= |Itoa(b)| && a <= b / Power(|Itoa(b)| - |Itoa(a)|)
  }

  lemma {:induction false} NumeralOrder(a: nat, b: nat)
    requires |Itoa(a)| <= |Itoa(b)|
    ensures Less(Itoa(a), Itoa(b)) || Itoa(a) == Itoa(b) <==> AtMostHead(a, b)
    decreases b
  {
    hide Less;
    LessTotal(Itoa(a), Itoa(b));
    if |Itoa(a)| == |Itoa(b)| {
      if a < b {
        NumeralsOrdered(a, b);
      } else if b < a {
        NumeralsOrdered(b, a);
      }
    } else {
      var d := |Itoa(b)| - |Itoa(a)|;
      assert b >= 10 && Itoa(b) == Itoa(b / 10) + [Digit(b % 10)];
      NumeralOrder(a, b / 10);
      LessSnoc(Itoa(a), Itoa(b / 10), Digit(b % 10));
      DivideTwice(b, Power(d - 1));
    }
  }

  /** The name of an earlier time comes first if and only if it is at most the head of the later one. */
  lemma NameOrder(a: nat, b: nat)
    requires a < b
    ensures Less(Name(a), Name(b)) <==> AtMostHead(a, b)
    ensures Name(a) != Name(b)
  {
    hide Less, AtMostHead;
    NumeralsGrow(a, b);
    NumeralOrder(a, b);
    LessUnderPrefix(PREFIX, Itoa(a), Itoa(b));
    if |Itoa(a)| == |Itoa(b)| {
      NumeralsOrdered(a, b);
    }
    LessTotal(Itoa(a), Itoa(a));
    assert Name(a)[|PREFIX|..] == Itoa(a) && Name(b)[|PREFIX|..] == Itoa(b);
  }

  /** Times of one number of digits are in order; a second digit need not keep it. */
  lemma NamesDisordered()
    ensures Less(Name(10), Name(9)) && Less(Name(1), Name(20))
  {
    LessUnderPrefix(PREFIX, Itoa(10), Itoa(9));
    LessUnderPrefix(PREFIX, Itoa(1), Itoa(20));
    assert Itoa(10) == "10" && Itoa(9) == "9" && Itoa(1) == "1" && Itoa(20) == "20";
  }

  /** Times strictly increasing, and their names in the same order. */
  ghost predicate Increasing(times: seq<nat>) {
    forall i, j :: 0 <= i < j < |times| ==> times[i] < times[j] && AtMostHead(times[i], times[j])
  }

  /** Times that increase within one number of digits, as those of a clock do for centuries. */
  lemma OneLength(times: seq<nat>)
    requires forall i, j :: 0 <= i < j < |times| ==> times[i] < times[j] && |Itoa(times[i])| == |Itoa(times[j])|
    ensures Increasing(times)
  {
  }

  /** Name order is time order. */
  lemma NamesOrdered(times: seq<nat>, i: nat, j: nat)
    requires Increasing(times) && i < j < |times|
    ensures Less(Name(times[i]), Name(times[j])) && Name(times[i]) != Name(times[j])
  {
    NameOrder(times[i], times[j]);
  }

  function Snaps(names: set<string>): set<string> {
    set n | n in names && HasPrefix(n, PREFIX)
  }

  lemma SnapsRemove(names: set<string>, first: string)
    ensures Snaps(names - {first}) == Snaps(names) - {first}
  {
  }

  ghost predicate Least(names: set<string>, first: string) {
    first in names && forall n :: n in names && n != first ==> Less(first, n)
  }

  /** The first name in order. */
  method FirstInOrder(names: set<string>) returns (first: string)
    requires names != {}
    ensures Least(names, first)
  {
    first :| first in names;
    var todo := names - {first};
    while todo != {}
      invariant first in names && todo <= names
      invariant forall n :: n in names && n !in todo && n != first ==> Less(first, n)
      decreases todo
    {
      var n :| n in todo;
      LessTotal(n, first);
      if Less(n, first) {
        forall x | x in names && x !in todo && x != first
          ensures Less(n, x)
        {
          LessTrans(n, first, x);
        }
        first := n;
      }
      todo := todo - {n};
    }
  }

  class Directory {
    var names: set<string>

    constructor (initial: set<string>)
      ensures names == initial
    {
      names := initial;
    }
  }

  /** At most one snapshot is removed, the first in name order. */
  method SnapshotRetention(dir: Directory, retention: int, works: bool) returns (ok: bool)
    requires retention >= 0 || Snaps(dir.names) != {}
    modifies dir
    ensures |Snaps(old(dir.names))| <= retention || !works ==> dir.names == old(dir.names)
    ensures ok <==> |Snaps(old(dir.names))| <= retention || works
    ensures |Snaps(old(dir.names))| > retention && works ==>
              exists first :: Least(Snaps(old(dir.names)), first) && dir.names == old(dir.names) - {first}
    ensures forall n :: !HasPrefix(n, "etcd-snapshot-") ==> (n in dir.names <==> n in old(dir.names))
  {
    var found := Snaps(dir.names);
    if |found| <= retention {
      return true;
    }
    var first := FirstInOrder(found);
    if works {
      dir.names := dir.names - {first};
    }
    ok := works;
  }

  /** Keeping one of two snapshots: the newer one goes exactly when its head is below the older time. */
  method RetainOne(dir: Directory, a: nat, b: nat)
    requires a < b && Snaps(dir.names) == {Name(a), Name(b)}
    modifies dir
    ensures Snaps(dir.names) == if AtMostHead(a, b) then {Name(b)} else {Name(a)}
  {
    hide Name, Less, AtMostHead;
    NameOrder(a, b);
    LessTotal(Name(a), Name(b));
    ghost var names := dir.names;
    var _ := SnapshotRetention(dir, 1, true);
    ghost var first :| Least(Snaps(names), first) && dir.names == names - {first};
    SnapsRemove(names, first);
  }

  datatype Event = Event(time: nat, saves: bool, works: bool)

  /** At most the first snapshot in name order went, and only from above the retention. */
  ghost predicate Pruned(names: set<string>, names': set<string>, retention: nat, works: bool) {
    if |Snaps(names)| <= retention || !works then names' == names
    else exists first :: Least(Snaps(names), first) && names' == names - {first}
  }

  method TakeSnapshot(dir: Directory, retention: nat, e: Event)
    modifies dir
    ensures !e.saves ==> dir.names == old(dir.names)
    ensures e.saves ==> Pruned(old(dir.names) + {Name(e.time)}, dir.names, retention, e.works)
    ensures forall n :: !HasPrefix(n, "etcd-snapshot-") ==> (n in dir.names <==> n in old(dir.names))
  {
    if e.saves {
      dir.names := dir.names + {Name(e.time)};
      var ok := SnapshotRetention(dir, retention, e.works);
    }
  }

  // Runs.

  function Saved(events: seq<Event>): seq<nat> {
    if events == [] then []
    else
      var e := events[|events| - 1];
      Saved(events[..|events| - 1]) + if e.saves then [e.time] else []
  }

  /** How many snapshots are there after the events, from `start` of them. */
  function Count(start: nat, events: seq<Event>, retention: nat): nat {
    if events == [] then start
    else
      var e, c := events[|events| - 1], Count(start, events[..|events| - 1], retention);
      if e.saves && (c < retention || !e.works) then c + 1 else c
  }

  ghost function Newest(times: seq<nat>, c: nat): set<string> {
    set i | 0 <= i < |times| && |times| - c <= i :: Name(times[i])
  }

  lemma {:induction false} NewestCount(times: seq<nat>, c: nat)
    requires Increasing(times) && c <= |times|
    ensures |Newest(times, c)| == c
  {
    hide Name;
    if c == 0 {
      assert Newest(times, 0) == {};
    } else {
      NewestCount(times, c - 1);
      var i := |times| - c;
      forall j | i < j < |times|
        ensures Name(times[j]) != Name(times[i])
      {
        NamesOrdered(times, i, j);
      }
      assert Newest(times, c) == Newest(times, c - 1) + {Name(times[i])};
    }
  }

  lemma NewestLeast(times: seq<nat>, c: nat, first: string)
    requires Increasing(times) && 0 < c <= |times| && Least(Newest(times, c), first)
    ensures first == Name(times[|times| - c]) && Newest(times, c) - {first} == Newest(times, c - 1)
  {
    hide Name;
    var i := |times| - c;
    assert Name(times[i]) in Newest(times, c);
    forall j | i < j < |times|
      ensures Less(Name(times[i]), Name(times[j])) && Name(times[i]) != Name(times[j])
    {
      NamesOrdered(times, i, j);
    }
    LessTotal(first, Name(times[i]));
  }

  lemma NewestAppend(times: seq<nat>, time: nat, c: nat)
    requires c <= |times|
    ensures Newest(times + [time], c + 1) == Newest(times, c) + {Name(time)}
  {
    hide Name;
    var all := times + [time];
    assert all[|times|] == time && forall i :: 0 <= i < |times| ==> all[i] == times[i];
  }

  lemma SnapsAdd(names: set<string>, time: nat)
    ensures Snaps(names + {Name(time)}) == Snaps(names) + {Name(time)}
  {
    assert HasPrefix(Name(time), PREFIX);
    hide Name;
  }

  lemma {:induction false} CountBound(start: nat, events: seq<Event>, retention: nat)
    ensures Count(start, events, retention) <= start + |Saved(events)|
  {
    if events != [] {
      CountBound(start, events[..|events| - 1], retention);
    }
  }

  lemma {:induction false} SavedPrefix(initial: seq<nat>, events: seq<Event>, n: nat)
    requires n <= |events| && Increasing(initial + Saved(events))
    ensures Increasing(initial + Saved(events[..n]))
    decreases |events|
  {
    hide AtMostHead;
    if n == |events| {
      assert events[..n] == events;
    } else {
      var init := events[..|events| - 1];
      var all, times := initial + Saved(events), initial + Saved(init);
      assert |times| <= |all| && forall i :: 0 <= i < |times| ==> times[i] == all[i];
      SavedPrefix(initial, init, n);
      assert init[..n] == events[..n];
    }
  }

  lemma PrunedNewest(times: seq<nat>, c: nat, names: set<string>, names': set<string>, retention: nat, works: bool)
    requires Increasing(times) && c <= |times| && Snaps(names) == Newest(times, c)
    requires Pruned(names, names', retention, works)
    ensures Snaps(names') == Newest(times, if c <= retention || !works then c else c - 1)
  {
    hide Snaps, Newest, Least, Increasing;
    NewestCount(times, c);
    if c > retention && works {
      var first :| Least(Snaps(names), first) && names' == names - {first};
      NewestLeast(times, c, first);
      SnapsRemove(names, first);
    }
  }

  lemma EventsSnoc(start: nat, before: seq<Event>, e: Event, retention: nat)
    ensures Saved(before + [e]) == if e.saves then Saved(before) + [e.time] else Saved(before)
    ensures Count(start, before + [e], retention) ==
            var c := Count(start, before, retention);
            if e.saves && (c < retention || !e.works) then c + 1 else c
  {
    assert (before + [e])[..|before|] == before;
  }

  lemma Taken(initial: seq<nat>, before: seq<Event>, e: Event, retention: nat, names: set<string>, names': set<string>)
    requires Increasing(initial + Saved(before + [e]))
    requires Snaps(names) == Newest(initial + Saved(before), Count(|initial|, before, retention))
    requires !e.saves ==> names' == names
    requires e.saves ==> Pruned(names + {Name(e.time)}, names', retention, e.works)
    ensures Snaps(names') == Newest(initial + Saved(before + [e]), Count(|initial|, before + [e], retention))
  {
    hide Snaps, Name, Newest, Pruned, Increasing, Saved, Count;
    EventsSnoc(|initial|, before, e, retention);
    if e.saves {
      var times, c := initial + Saved(before), Count(|initial|, before, retention);
      CountBound(|initial|, before, retention);
      assert initial + (Saved(before) + [e.time]) == times + [e.time];
      NewestAppend(times, e.time, c);
      SnapsAdd(names, e.time);
      PrunedNewest(times + [e.time], c + 1, names + {Name(e.time)}, names', retention, e.works);
    }
  }

  /**
   From any snapshots in the directory, more than the retention or not, the snapshots after all events
   are exactly the newest ones, as many as `Count` says.
   */
  method RunSnapshots(dir: Directory, retention: nat, ghost initial: seq<nat>, events: seq<Event>)
    requires Snaps(dir.names) == Newest(initial, |initial|) && Increasing(initial + Saved(events))
    modifies dir
    ensures Snaps(dir.names) == Newest(initial + Saved(events), Count(|initial|, events, retention))
    ensures forall n :: !HasPrefix(n, "etcd-snapshot-") ==> (n in dir.names <==> n in old(dir.names))
  {
    hide Increasing, Newest, Snaps, Pruned, Name;
    ghost var c := |initial|;
    assert initial + Saved(events[..0]) == initial;
    for n := 0 to |events|
      invariant Snaps(dir.names) == Newest(initial + Saved(events[..n]), Count(c, events[..n], retention))
      invariant forall x :: !HasPrefix(x, "etcd-snapshot-") ==> (x in dir.names <==> x in old(dir.names))
    {
      ghost var names := dir.names;
      TakeSnapshot(dir, retention, events[n]);
      SavedPrefix(initial, events, n + 1);
      assert events[..n + 1] == events[..n] + [events[n]];
      Taken(initial, events[..n], events[n], retention, names, dir.names);
    }
    assert events[..|events|] == events;
  }

  /** As long as every removal works the number kept grows up to the retention, and not at all from above it. */
  lemma {:induction false} RetentionKept(start: nat, events: seq<Event>, retention: nat)
    requires forall i :: 0 <= i < |events| ==> events[i].works
    ensures Count(start, events, retention) ==
            if start >= retention then start
            else if start + |Saved(events)| < retention then start + |Saved(events)| else retention
  {
    if events != [] {
      RetentionKept(start, events[..|events| - 1], retention);
    }
  }

  /** An excess is never made up for: the number kept does not come down again. */
  lemma {:induction false} ExcessStays(start: nat, events: seq<Event>, n: nat, retention: nat)
    requires n <= |events|
    ensures start <= Count(start, events[..n], retention) <= Count(start, events, retention)
    decreases |events|, |events| - n
  {
    if n == |events| {
      assert events[..n] == events;
      if n > 0 {
        ExcessStays(start, events[..n - 1], n - 1, retention);
        assert events[..n - 1][..n - 1] == events[..n - 1];
      }
    } else {
      ExcessStays(start, events[..|events| - 1], n, retention);
      assert events[..|events| - 1][..n] == events[..n];
    }
  }

  ghost predicate FailedWhenFull(start: nat, events: seq<Event>, n: nat, retention: nat)
    requires n < |events|
  {
    events[n].saves && !events[n].works && Count(start, events[..n], retention) >= retention
  }

  ghost predicate NeverFailedWhenFull(start: nat, events: seq<Event>, retention: nat) {
    forall n: nat :: n < |events| ==> !FailedWhenFull(start, events, n, retention)
  }

  /** The number kept is within the retention if and only if it was and no removal failed in a full directory. */
  lemma {:induction false} RetentionExactly(start: nat, events: seq<Event>, retention: nat)
    ensures Count(start, events, retention) <= retention <==>
            start <= retention && NeverFailedWhenFull(start, events, retention)
  {
    if events != [] {
      var last := |events| - 1;
      var init := events[..last];
      RetentionExactly(start, init, retention);
      assert forall n: nat :: n < last ==> init[..n] == events[..n];
      assert forall n: nat :: n < last ==>
        (FailedWhenFull(start, init, n, retention) <==> FailedWhenFull(start, events, n, retention));
      assert FailedWhenFull(start, events, last, retention) <==>
             events[last].saves && !events[last].works && Count(start, init, retention) >= retention;
    }
  }
}
