/** Promotion and eviction of etcd learners. Times are in milliseconds. */
module Learners {
  import opened Basics

  datatype Member = Member(id: nat, name: string)

  /** The record kept in etcd about the learner that is being watched. */
  datatype Progress = Progress(member: Member, index: nat, last: nat)

  const NO_PROGRESS := Progress(Member(0, ""), 0, 0)

  const MAX_STALL := 60_000

  /** What one tick of the manager meets. */
  datatype Tick = Tick(
    now: nat,
    leader: bool,              // the local member could be asked and is the leader
    read: bool,                // the record and the member list could be read
    learner: Option<Member>,   // the first learner listed
    promoted: bool,            // the attempt to promote it worked
    statuses: seq<Option<nat>>,// the applied index that each client URL reports, if reachable
    put: bool,                 // storing the record would work
    removed: bool              // removing the member would work
  )

  /** Times are stored in whole seconds. */
  function Stored(t: nat): nat {
    t - t % 1000
  }

  function FirstStatus(statuses: seq<Option<nat>>): Option<nat> {
    if statuses == [] then None
    else if statuses[0].Some? then statuses[0]
    else FirstStatus(statuses[1..])
  }

  /** The first client URL that can be reached reports this index. */
  ghost predicate Reports(statuses: seq<Option<nat>>, index: nat) {
    exists i :: 0 <= i < |statuses| && statuses[i] == Some(index) && forall j :: 0 <= j < i ==> statuses[j].None?
  }

  lemma {:induction false} FirstStatusMeaning(statuses: seq<Option<nat>>, index: nat)
    ensures FirstStatus(statuses) == Some(index) <==> Reports(statuses, index)
    ensures FirstStatus(statuses).None? <==> forall i :: 0 <= i < |statuses| ==> statuses[i].None?
  {
    if statuses != [] && statuses[0].None? {
      var rest := statuses[1..];
      FirstStatusMeaning(rest, index);
      if i :| 0 <= i < |rest| && rest[i] == Some(index) && forall j :: 0 <= j < i ==> rest[j].None? {
        assert statuses[i + 1] == Some(index) && forall j :: 0 < j < i + 1 ==> statuses[j] == rest[j - 1];
      }
      if i :| 0 <= i < |statuses| && statuses[i] == Some(index) && forall j :: 0 <= j < i ==> statuses[j].None? {
        assert rest[i - 1] == Some(index) && forall j :: 0 <= j < i - 1 ==> rest[j] == statuses[j + 1];
      }
      assert forall i :: 0 < i < |statuses| ==> statuses[i] == rest[i - 1];
    }
  }

  /** The record after looking at the learner. */
  function Observed(p: Progress, m: Member, now: nat, status: Option<nat>): Progress {
    var p := if p.member != m then Progress(m, 0, now) else p;
    if status.Some? && p.index < status.value then Progress(m, status.value, now) else p
  }

  /** The tick gets as far as looking at a learner. */
  predicate Watches(t: Tick) {
    t.leader && t.read && t.learner.Some? && !t.promoted
  }

  predicate Stalled(p: Progress, now: nat) {
    now - p.last > MAX_STALL
  }

  function Looked(p: Progress, t: Tick): Progress
    requires Watches(t)
  {
    Observed(p, t.learner.value, t.now, FirstStatus(t.statuses))
  }

  predicate Evicts(p: Progress, t: Tick) {
    Watches(t) && Stalled(Looked(p, t), t.now)
  }

  /** The stored record after a tick; it is not written when the learner is to be evicted. */
  function After(p: Progress, t: Tick): Progress {
    if Watches(t) && !Evicts(p, t) && t.put then Looked(p, t).(last := Stored(Looked(p, t).last)) else p
  }

  function RecordAt(ticks: seq<Tick>, n: nat): Progress
    requires n <= |ticks|
  {
    if n == 0 then NO_PROGRESS else After(RecordAt(ticks, n - 1), ticks[n - 1])
  }

  predicate EvictsAt(ticks: seq<Tick>, n: nat, m: Member)
    requires n < |ticks|
  {
    Evicts(RecordAt(ticks, n), ticks[n]) && ticks[n].learner == Some(m)
  }

  /** The learners that are removed, in order: one for each tick that evicts and succeeds. */
  ghost function Removals(ticks: seq<Tick>, n: nat): seq<Member>
    requires n <= |ticks|
  {
    if n == 0 then []
    else
      Removals(ticks, n - 1) +
      if Evicts(RecordAt(ticks, n - 1), ticks[n - 1]) && ticks[n - 1].removed then [ticks[n - 1].learner.value] else []
  }

  /** The learner has got further than the given index. */
  ghost predicate Advances(t: Tick, index: nat) {
    exists x: nat :: Reports(t.statuses, x) && x > index
  }

  lemma AdvancesMeaning(t: Tick, index: nat)
    ensures Advances(t, index) <==> FirstStatus(t.statuses).Some? && FirstStatus(t.statuses).value > index
  {
    hide Reports, FirstStatus;
    forall x: nat
      ensures FirstStatus(t.statuses) == Some(x) <==> Reports(t.statuses, x)
    {
      FirstStatusMeaning(t.statuses, x);
    }
  }

  /**
   A look evicts exactly when it could not promote the learner on record, more than a minute has passed
   since the time on record, and the first client URL that can be reached, if any, reports no progress.
   */
  lemma EvictsExactly(p: Progress, t: Tick)
    ensures Evicts(p, t) <==>
            && t.leader && t.read && t.learner == Some(p.member) && !t.promoted
            && t.now - p.last > 60_000 && !Advances(t, p.index)
  {
    AdvancesMeaning(t, p.index);
    hide FirstStatus, Advances;
  }

  /**
   A look that can write and does not evict records the time when it sees another learner, or progress of
   the one on record, and the index that it sees then; otherwise the record stays, in whole seconds.
   */
  lemma WritesExactly(p: Progress, t: Tick)
    requires Watches(t) && t.put && !Evicts(p, t)
    ensures After(p, t).member == t.learner.value
    ensures t.learner != Some(p.member) || Advances(t, p.index) ==> After(p, t).last == t.now / 1000 * 1000
    ensures t.learner == Some(p.member) && !Advances(t, p.index) ==>
              After(p, t).index == p.index && After(p, t).last == p.last / 1000 * 1000
    ensures t.learner != Some(p.member) && !Advances(t, 0) ==> After(p, t).index == 0
    ensures Advances(t, if t.learner == Some(p.member) then p.index else 0) ==> Reports(t.statuses, After(p, t).index)
  {
    AdvancesMeaning(t, p.index);
    AdvancesMeaning(t, 0);
    if FirstStatus(t.statuses).Some? {
      FirstStatusMeaning(t.statuses, FirstStatus(t.statuses).value);
    }
    hide FirstStatus, Advances, Reports;
  }

  /** The manager, with the record that etcd holds for it. */
  class Manager {
    var record: Progress
    var removals: seq<Member>

    constructor ()
      ensures record == NO_PROGRESS && removals == []
    {
      record, removals := NO_PROGRESS, [];
    }

    method FirstReachable(statuses: seq<Option<nat>>) returns (status: Option<nat>)
      ensures status == FirstStatus(statuses)
      ensures status.Some? ==> Reports(statuses, status.value)
      ensures status.None? ==> forall i :: 0 <= i < |statuses| ==> statuses[i].None?
    {
      var i := 0;
      while i < |statuses|
        invariant 0 <= i <= |statuses|
        invariant FirstStatus(statuses) == FirstStatus(statuses[i..])
        invariant forall j :: 0 <= j < i ==> statuses[j].None?
      {
        if statuses[i].Some? {
          return statuses[i];
        }
        i := i + 1;
      }
      status := None;
    }

    method TrackLearnerProgress(m: Member, t: Tick)
      requires t.leader && t.read && t.learner == Some(m)
      modifies this
      ensures record == After(old(record), t)
      ensures removals == if Evicts(old(record), t) && t.removed then old(removals) + [m] else old(removals)
    {
      if t.promoted {
        return;
      }
      var progress := record;
      if progress.member != m {
        progress := Progress(m, 0, t.now);
      }
      var status := FirstReachable(t.statuses);
      if status.Some? && progress.index < status.value {
        progress := Progress(m, status.value, t.now);
      }
      if t.now - progress.last > MAX_STALL {
        if t.removed {
          removals := removals + [m];
        }
        return;
      }
      if t.put {
        record := progress.(last := Stored(progress.last));
      }
    }

    method ManageLearners(ticks: seq<Tick>)
      requires record == NO_PROGRESS && removals == []
      modifies this
      ensures record == RecordAt(ticks, |ticks|)
      ensures forall m :: m in removals <==> exists n :: 0 <= n < |ticks| && EvictsAt(ticks, n, m) && ticks[n].removed
      ensures removals == Removals(ticks, |ticks|)
    {
      for n := 0 to |ticks|
        invariant record == RecordAt(ticks, n)
        invariant forall m :: m in removals <==> exists k :: 0 <= k < n && EvictsAt(ticks, k, m) && ticks[k].removed
        invariant removals == Removals(ticks, n)
      {
        var t := ticks[n];
        if t.leader && t.read && t.learner.Some? {
          TrackLearnerProgress(t.learner.value, t);
        }
      }
    }
  }

  // What is promised of every run.

  ghost predicate Orderly(ticks: seq<Tick>) {
    forall i, j :: 0 <= i <= j < |ticks| ==> ticks[i].now <= ticks[j].now
  }

  /** No member has the identifier 0 of the empty record. */
  ghost predicate RealMembers(ticks: seq<Tick>) {
    forall i :: 0 <= i < |ticks| && ticks[i].learner.Some? ==> ticks[i].learner.value.id != 0
  }

  /** A tick that watched this learner and saw no index above the given one. */
  predicate Quiet(t: Tick, m: Member, index: nat) {
    t.learner == Some(m) && (FirstStatus(t.statuses).Some? ==> FirstStatus(t.statuses).value <= index)
  }

  /** Tick `k` looked at the learner on record, and what it then recorded still stands before tick `n`. */
  ghost predicate Since(ticks: seq<Tick>, k: nat, n: nat)
    requires n <= |ticks|
  {
    var p := RecordAt(ticks, n);
    && k < n && Watches(ticks[k]) && ticks[k].learner == Some(p.member)
    && p.last == Stored(ticks[k].now)
    && (forall j :: k < j <= n ==> RecordAt(ticks, j) == p)
    && (forall j :: k < j < n && Watches(ticks[j]) && ticks[j].put ==> Quiet(ticks[j], p.member, p.index))
  }

  /** A tick that can write either starts a new spell for the learner it looks at, or leaves the record as it is. */
  lemma Spell(p: Progress, t: Tick)
    requires t.put && Watches(t) && p.last == Stored(p.last)
    ensures || (After(p, t).member == t.learner.value && After(p, t).last == Stored(t.now))
            || (After(p, t) == p && Quiet(t, p.member, p.index))
    ensures After(p, t).last == Stored(After(p, t).last)
  {
  }

  lemma SinceStep(ticks: seq<Tick>, k: nat, before: nat, n: nat)
    requires n <= |ticks| && before + 1 == n && Since(ticks, k, before) && RecordAt(ticks, n) == RecordAt(ticks, before)
    requires Watches(ticks[before]) && ticks[before].put ==>
               Quiet(ticks[before], RecordAt(ticks, n).member, RecordAt(ticks, n).index)
    ensures Since(ticks, k, n)
  {
    hide FirstStatus, RecordAt, Watches, Quiet, Stored;
  }

  lemma SinceNow(ticks: seq<Tick>, before: nat, n: nat)
    requires n <= |ticks| && before + 1 == n && Watches(ticks[before])
    requires RecordAt(ticks, n).member == ticks[before].learner.value
    requires RecordAt(ticks, n).last == Stored(ticks[before].now)
    ensures Since(ticks, before, n)
  {
    hide FirstStatus, After;
  }

  lemma Idle(p: Progress, t: Tick)
    requires !Watches(t) || !t.put
    ensures After(p, t) == p
  {
  }

  lemma {:induction false} RecordHasOrigin(ticks: seq<Tick>, n: nat)
    requires n <= |ticks|
    ensures RecordAt(ticks, n).last == Stored(RecordAt(ticks, n).last)
    ensures RecordAt(ticks, n) == NO_PROGRESS || exists k: nat :: Since(ticks, k, n)
  {
    hide FirstStatus, After, Since;
    if n > 0 {
      var before := n - 1;
      RecordHasOrigin(ticks, before);
      var p, t := RecordAt(ticks, before), ticks[before];
      if Watches(t) && t.put {
        Spell(p, t);
        if RecordAt(ticks, n).member == t.learner.value && RecordAt(ticks, n).last == Stored(t.now) {
          SinceNow(ticks, before, n);
        } else if k: nat :| Since(ticks, k, before) {
          SinceStep(ticks, k, before, n);
        }
      } else {
        Idle(p, t);
        if k: nat :| Since(ticks, k, before) {
          SinceStep(ticks, k, before, n);
        }
      }
    }
  }

  /** An eviction comes from a record of the same learner that the tick could not improve. */
  lemma EvictionIsQuiet(p: Progress, t: Tick)
    requires Evicts(p, t)
    ensures t.learner == Some(p.member) && Quiet(t, p.member, p.index) && t.now - p.last > MAX_STALL
  {
  }

  /** Tick `j` looked at a learner within the minute before tick `n`, by the stored time. */
  predicate Recent(ticks: seq<Tick>, j: nat, n: nat)
    requires j < |ticks| && n < |ticks|
  {
    Watches(ticks[j]) && ticks[n].now - Stored(ticks[j].now) <= MAX_STALL
  }

  /** What tick `j` saw and should have recorded was lost, because the record could not be written. */
  predicate Forgets(ticks: seq<Tick>, j: nat)
    requires j < |ticks|
  {
    !ticks[j].put && !Quiet(ticks[j], RecordAt(ticks, j).member, RecordAt(ticks, j).index)
  }

  lemma StoredMonotone(ticks: seq<Tick>, j: nat, k: nat)
    requires Orderly(ticks) && j < |ticks| && k < |ticks|
    ensures j <= k ==> Stored(ticks[j].now) <= Stored(ticks[k].now)
  {
  }

  /**
   Eviction safety, for every run with a clock that does not run backwards. The evicted learner had
   been looked at more than a minute before. All looks of the last minute saw the evicted learner no
   higher than on record if and only if none of them forgot what it saw. Times are as stored.
   */
  lemma EvictionSafe(ticks: seq<Tick>, n: nat, m: Member)
    requires Orderly(ticks) && RealMembers(ticks) && n < |ticks| && EvictsAt(ticks, n, m)
    ensures exists k: nat ::
              && k < n && Watches(ticks[k]) && ticks[k].learner == Some(m)
              && ticks[n].now - Stored(ticks[k].now) > MAX_STALL
              && RecordAt(ticks, k + 1) == RecordAt(ticks, n)
    ensures (forall j: nat :: j <= n && Recent(ticks, j, n) ==> Quiet(ticks[j], m, RecordAt(ticks, n).index)) <==>
            (forall j: nat :: j < n && Recent(ticks, j, n) ==> !Forgets(ticks, j))
  {
    hide FirstStatus, RecordAt, Watches, Evicts, Quiet, Stored;
    RecordHasOrigin(ticks, n);
    var p := RecordAt(ticks, n);
    EvictionIsQuiet(p, ticks[n]);
    assert p != NO_PROGRESS;
    var k: nat :| Since(ticks, k, n);
    assert RecordAt(ticks, k + 1) == p;
    forall j: nat | j < n && Recent(ticks, j, n)
      ensures Quiet(ticks[j], m, p.index) <==> !Forgets(ticks, j)
    {
      StoredMonotone(ticks, j, k);
      assert RecordAt(ticks, j) == p;
    }
  }

  /** While one learner is on record, its recorded index never falls, whatever fails. */
  lemma {:induction false} IndexNeverFalls(ticks: seq<Tick>, i: nat, n: nat)
    requires i <= n <= |ticks|
    requires forall j :: i <= j <= n ==> RecordAt(ticks, j).member == RecordAt(ticks, i).member
    ensures RecordAt(ticks, i).index <= RecordAt(ticks, n).index
    decreases n
  {
    if i < n {
      IndexNeverFalls(ticks, i, n - 1);
      assert RecordAt(ticks, n - 1).member == RecordAt(ticks, n).member;
    }
  }

  /**
   On the real clock the stall is only known to exceed 59 seconds, because stored times lose up to a
   second, and a minute if progress was seen on a whole second.
   */
  lemma EvictionOnRealClock(ticks: seq<Tick>, n: nat, m: Member)
    requires Orderly(ticks) && RealMembers(ticks) && n < |ticks| && EvictsAt(ticks, n, m)
    ensures exists k: nat ::
              && k < n && Watches(ticks[k]) && ticks[k].learner == Some(m) &&
                RecordAt(ticks, k + 1) == RecordAt(ticks, n)
              && ticks[n].now - ticks[k].now > (if ticks[k].now % 1000 == 0 then MAX_STALL else MAX_STALL - 1000)
  {
    hide RecordAt, Watches, EvictsAt;
    EvictionSafe(ticks, n, m);
    var k: nat :| k < n && Watches(ticks[k]) && ticks[k].learner == Some(m)
                  && ticks[n].now - Stored(ticks[k].now) > MAX_STALL && RecordAt(ticks, k + 1) == RecordAt(ticks, n);
  }

  function LookAt(m: Member, now: nat, statuses: seq<Option<nat>>, put: bool): Tick {
    Tick(now, true, true, Some(m), false, statuses, put, true)
  }

  /** A learner seen at `s` and again, with no progress, at `now`, is evicted within a minute by the real clock. */
  predicate EvictedEarly(m: Member, s: nat, now: nat) {
    && now - s <= MAX_STALL
    && EvictsAt([LookAt(m, s, [Some(7)], true), LookAt(m, now, [Some(7)], true)], 1, m)
  }

  lemma EarlyByTruncation(m: Member, s: nat, now: nat)
    requires m.id != 0
    ensures EvictedEarly(m, s, now) <==> now - s <= MAX_STALL && now - Stored(s) > MAX_STALL
  {
    var ticks := [LookAt(m, s, [Some(7)], true), LookAt(m, now, [Some(7)], true)];
    assert RecordAt(ticks, 0) == NO_PROGRESS;
    assert RecordAt(ticks, 1) == Progress(m, 7, Stored(s));
  }

  /** Storing whole seconds makes an early eviction possible exactly when progress was seen off a whole second. */
  lemma TruncationCosts(m: Member, s: nat)
    requires m.id != 0
    ensures (exists now: nat :: EvictedEarly(m, s, now)) <==> s % 1000 != 0
  {
    hide EvictedEarly;
    EarlyByTruncation(m, s, s + MAX_STALL);
    forall now: nat
      ensures EvictedEarly(m, s, now) <==> now - s <= MAX_STALL && now - Stored(s) > MAX_STALL
    {
      EarlyByTruncation(m, s, now);
    }
  }

  /** When a write fails, a learner can be evicted eleven seconds after it showed progress. */
  lemma FailedPutForgets(m: Member)
    requires m.id != 0
    ensures var ticks := [LookAt(m, 0, [Some(5)], true), LookAt(m, 50_000, [Some(9)], false),
                          LookAt(m, 61_000, [], true)];
            && EvictsAt(ticks, 2, m) && Recent(ticks, 1, 2) && Forgets(ticks, 1)
            && !Quiet(ticks[1], m, RecordAt(ticks, 2).index)
  {
    var ticks := [LookAt(m, 0, [Some(5)], true), LookAt(m, 50_000, [Some(9)], false), LookAt(m, 61_000, [], true)];
    assert RecordAt(ticks, 0) == NO_PROGRESS;
    assert RecordAt(ticks, 1) == Progress(m, 5, 0);
    assert RecordAt(ticks, 2) == Progress(m, 5, 0);
  }
}
