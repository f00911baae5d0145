/** What one tick round does to the sleepers, and how long a sleep lasts. */
module Rounds {
  import opened Options
  import opened ProcessSpec
  import opened SchedulerSpec
  import opened Threads
  import opened Places
  import opened Invariant
  import opened TickRound
  import opened Reachable

  // ---------------------------------------------------------------------------------------------
  // The atomic round: every sleeper is ticked once, and those on their last tick wake.

  predicate IsDue(procs: seq<Proc>, p: nat) {
    p < |procs| && procs[p].sleepRemaining == 1
  }

  function DueNow(procs: seq<Proc>, refs: seq<nat>): seq<nat> {
    if refs == [] then []
    else
      var last := refs[|refs| - 1];
      DueNow(procs, refs[..|refs| - 1]) +
      if IsDue(procs, last) then [last] else []
  }

  function StillAsleep(procs: seq<Proc>, refs: seq<nat>): seq<nat> {
    if refs == [] then []
    else
      var last := refs[|refs| - 1];
      StillAsleep(procs, refs[..|refs| - 1]) +
      if IsDue(procs, last) then [] else [last]
  }

  lemma {:induction false} DueIsDueNow(procs: seq<Proc>, refs: seq<nat>, before: seq<Proc>, k: nat)
    requires k <= |refs| == |before|
    requires forall j :: 0 <= j < |refs| ==> refs[j] < |procs| && before[j] == procs[refs[j]]
    ensures Due(refs, before, k) == DueNow(procs, refs[..k])
  {
    if k > 0 {
      DueIsDueNow(procs, refs, before, k - 1);
      assert refs[..k][..k - 1] == refs[..k - 1];
    }
  }

  lemma {:induction false} OthersAreStillAsleep(procs: seq<Proc>, refs: seq<nat>, woken: seq<nat>)
    requires forall j :: 0 <= j < |refs| ==> (refs[j] in woken <==> IsDue(procs, refs[j]))
    ensures Others(refs, woken) == StillAsleep(procs, refs)
  {
    if refs != [] {
      OthersAreStillAsleep(procs, refs[..|refs| - 1], woken);
    }
  }

  // ---------------------------------------------------------------------------------------------
  // A round is over when its tick thread rests; until then its snapshot stays as it was taken.

  lemma TicksOnlyGrow(s: System, l: Label)
    ensures s.sh.tick <= Apply(s, l).sh.tick
    ensures Apply(s, l).sh.tick == s.sh.tick && !Apply(s, l).ticker.Resting? ==>
              && !s.ticker.Resting?
              && SnapshotOf(Apply(s, l).ticker) == SnapshotOf(s.ticker)
              && BeforeOf(Apply(s, l).ticker) == BeforeOf(s.ticker)
  {
  }

  lemma {:induction false} RoundKeepsSnapshot(s: System, schedule: seq<Label>)
    ensures var t := Execute(s, schedule);
            && s.sh.tick <= t.sh.tick
            && (t.sh.tick == s.sh.tick && !t.ticker.Resting? ==>
                  && !s.ticker.Resting?
                  && SnapshotOf(t.ticker) == SnapshotOf(s.ticker) && BeforeOf(t.ticker) == BeforeOf(s.ticker))
  {
    if schedule != [] {
      var n := |schedule| - 1;
      RoundKeepsSnapshot(s, schedule[..n]);
      TicksOnlyGrow(Execute(s, schedule[..n]), schedule[n]);
      hide Apply;
    }
  }

  /** The states in which a round begins and in which it is about to rebuild the lists, with any
      schedule in between. */
  ghost predicate SameRound(begin: System, schedule: seq<Label>, end: System) {
    && IsReachable(begin) && begin.ticker.Resting? && AdmissibleSchedule(schedule)
    && end == Execute(Apply(begin, TickTurn), schedule)
    && end.ticker.Rebuilding? && end.sh.tick == begin.sh.tick + 1
  }

  lemma RoundSnapshot(begin: System, schedule: seq<Label>, end: System)
    requires SameRound(begin, schedule, end)
    ensures Inv(begin) && Inv(end)
    ensures SnapshotOf(end.ticker) == begin.sh.sleeping
    ensures |BeforeOf(end.ticker)| == |begin.sh.sleeping|
    ensures forall j :: 0 <= j < |begin.sh.sleeping| ==>
                        begin.sh.sleeping[j] < |begin.sh.procs| && BeforeOf(end.ticker)[j] == begin.sh.procs[begin.sh.sleeping[j]]
  {
    hide Inv;
    ReachableInv(begin);
    ApplyKeepsInv(begin, TickTurn);
    ExecuteKeepsInv(Apply(begin, TickTurn), schedule);
    RoundKeepsSnapshot(Apply(begin, TickTurn), schedule);
    SleepersExist(begin);
    SnapshotCopies(begin.sh.procs, begin.sh.sleeping);
  }

  lemma SleepersExist(s: System)
    requires Inv(s)
    ensures forall j :: 0 <= j < |s.sh.sleeping| ==> s.sh.sleeping[j] < |s.sh.procs|
  {
    SleepingExclusively(s.sh, s.cores);
  }

  /** Every sleeper of the snapshot has been ticked exactly once when the lists are rebuilt. */
  lemma RoundTicksOnce(begin: System, schedule: seq<Label>, end: System, j: nat)
    requires SameRound(begin, schedule, end) && j < |begin.sh.sleeping|
    ensures var p := begin.sh.sleeping[j];
            p < |begin.sh.procs| && p < |end.sh.procs| && end.sh.procs[p] == TickSleep(begin.sh.procs[p])
  {
    RoundSnapshot(begin, schedule, end);
    hide SameRound, Partition, SlotsOk, PidsOk, ProcsOk, CoresOk, ReadyOk, FinishedOk;
    assert InRound(end.sh, SnapshotOf(end.ticker)[j], BeforeOf(end.ticker)[j], j < Ticked(end.ticker));
  }

  lemma PidsOfDistinct(procs: seq<Proc>, makers: seq<Maker>, nextPid: int, refs: seq<nat>)
    requires PidsOk(procs, makers, nextPid) && Distinct(refs)
    requires forall k :: 0 <= k < |refs| ==> refs[k] < |procs|
    ensures forall j, k :: 0 <= j < k < |refs| ==> procs[refs[j]].pid != procs[refs[k]].pid
  {
  }

  lemma DueExist(s: System)
    requires Inv(s) && s.ticker.Rebuilding?
    ensures |s.ticker.sleepers| == |s.ticker.before|
    ensures var due := Due(s.ticker.sleepers, s.ticker.before, |s.ticker.sleepers|);
            Distinct(due) && forall k :: 0 <= k < |due| ==> due[k] < |s.sh.procs|
  {
    hide Partition, SlotsOk, ProcsOk, CoresOk, ReadyOk, FinishedOk, PidsOk, InRound, NotInRound, SortedForWaking;
    var sleepers := s.ticker.sleepers;
    var due := Due(sleepers, s.ticker.before, |sleepers|);
    SleepingExclusively(s.sh, s.cores);
    assert Distinct(sleepers) by {
      assert forall i :: 0 <= i < |sleepers| ==> sleepers[i] == s.sh.sleeping[i];
    }
    DueDistinct(sleepers, s.ticker.before, |sleepers|);
    forall k | 0 <= k < |due| ensures due[k] < |s.sh.procs| {
      assert due[k] in sleepers[..|sleepers|];
      assert due[k] in s.sh.sleeping;
    }
  }

  lemma WokenInOrder(s: System)
    requires Inv(s) && s.ticker.Rebuilding? && |s.ticker.sleepers| == |s.ticker.before|
    ensures var due := Due(s.ticker.sleepers, s.ticker.before, |s.ticker.sleepers|);
            && multiset(s.ticker.woken) == multiset(due) && SortedForWaking(s.sh.procs, s.ticker.woken)
            && s.ticker.woken == WakeOrder(s.sh.procs, due)
  {
    DueExist(s);
    hide Partition, SlotsOk, ProcsOk, CoresOk, ReadyOk, FinishedOk, InRound, NotInRound, SortedForWaking, PidsOk, Due;
    var due := Due(s.ticker.sleepers, s.ticker.before, |s.ticker.sleepers|);
    PidsOfDistinct(s.sh.procs, s.makers, s.sh.nextPid, due);
    WakeOrderSorts(s.sh.procs, due);
    WakeOrderIsUnique(s.sh.procs, s.ticker.woken, WakeOrder(s.sh.procs, due));
  }

  lemma WokenIsDue(begin: System, schedule: seq<Label>, end: System)
    requires SameRound(begin, schedule, end)
    ensures multiset(end.ticker.woken) == multiset(DueNow(begin.sh.procs, begin.sh.sleeping))
    ensures SortedForWaking(end.sh.procs, end.ticker.woken) && InArrivalOrder(end.sh.procs, end.ticker.woken)
    ensures end.ticker.woken == WakeOrder(end.sh.procs, DueNow(begin.sh.procs, begin.sh.sleeping))
  {
    RoundSnapshot(begin, schedule, end);
    hide Inv, SortedForWaking, Execute, IsReachable;
    var refs := begin.sh.sleeping;
    WokenInOrder(end);
    SortedIsArrivalOrder(end.sh.procs, end.ticker.woken);
    hide InArrivalOrder;
    DueIsDueNow(begin.sh.procs, refs, BeforeOf(end.ticker), |refs|);
    assert refs[..|refs|] == refs;
  }

  /** Those who wake together stand in the queue in the order of their arrival, in front of all others. */
  lemma WakesByArrival(s: System)
    requires IsReachable(s) && s.ticker.Rebuilding?
    ensures InArrivalOrder(s.sh.procs, s.ticker.woken)
    ensures var t, n := Apply(s, TickTurn), |s.ticker.woken|;
            && n <= |t.sh.ready| && t.sh.ready[..n] == s.ticker.woken && t.sh.ready[n..] == s.sh.ready
            && t.sh.procs == s.sh.procs && InArrivalOrder(t.sh.procs, t.sh.ready[..n])
  {
    ReachableInv(s);
    assert RoundOk(s.sh.procs, s.ticker) by { hide IsReachable, Partition, SlotsOk, ProcsOk, CoresOk, ReadyOk, FinishedOk, PidsOk; }
    SortedIsArrivalOrder(s.sh.procs, s.ticker.woken);
    WokenAreTracked(s);
    RebuildChangesLists(s);
    hide Inv, IsReachable, InArrivalOrder, Those, Others, Apply;
  }

  /** A round whose steps interleave with everybody else's refines the atomic round: at its end the
      due sleepers of its beginning stand, in waking order, in front of whatever the ready queue has
      become, and the sleepers are the others of its beginning, in order, followed by the late
      arrivals. Nothing else changes. */
  lemma RoundRefinesAtomicRound(begin: System, schedule: seq<Label>, end: System)
    requires SameRound(begin, schedule, end)
    ensures var done := Apply(end, TickTurn);
            var before := begin.sh;
            && |before.sleeping| <= |end.sh.sleeping| && end.sh.sleeping[..|before.sleeping|] == before.sleeping
            && done.sh.ready == WakeOrder(end.sh.procs, DueNow(before.procs, before.sleeping)) + end.sh.ready
            && InArrivalOrder(end.sh.procs, WakeOrder(end.sh.procs, DueNow(before.procs, before.sleeping)))
            && done.sh.sleeping == StillAsleep(before.procs, before.sleeping) + end.sh.sleeping[|before.sleeping|..]
            && done == end.(sh := end.sh.(ready := done.sh.ready, sleeping := done.sh.sleeping), ticker := Resting)
  {
    hide Inv;
    RoundSnapshot(begin, schedule, end);
    WokenIsDue(begin, schedule, end);
    WokenAreTracked(end);
    StayAsleep(begin, schedule, end);
    RebuildChangesLists(end);
    hide SameRound, Apply, Those, Others, InArrivalOrder;
  }

  lemma StayAsleep(begin: System, schedule: seq<Label>, end: System)
    requires SameRound(begin, schedule, end)
    ensures |begin.sh.sleeping| <= |end.sh.sleeping| && end.sh.sleeping[..|begin.sh.sleeping|] == begin.sh.sleeping
    ensures Others(end.sh.sleeping, end.ticker.woken)
            == StillAsleep(begin.sh.procs, begin.sh.sleeping) + end.sh.sleeping[|begin.sh.sleeping|..]
  {
    RoundSnapshot(begin, schedule, end);
    hide SameRound, Partition, SlotsOk, ProcsOk, CoresOk, ReadyOk, FinishedOk, InRound, NotInRound, PidsOk;
    SleepingExclusively(end.sh, end.cores);
    SplitSleepers(begin.sh.procs, begin.sh.sleeping, BeforeOf(end.ticker), end.ticker.woken, end.sh.sleeping);
  }

  lemma WokenAreTheDue(procs: seq<Proc>, refs: seq<nat>, before: seq<Proc>, woken: seq<nat>)
    requires Distinct(refs)
    requires |before| == |refs| && multiset(woken) == multiset(Due(refs, before, |refs|))
    requires forall j :: 0 <= j < |refs| ==> refs[j] < |procs| && before[j] == procs[refs[j]]
    ensures forall j :: 0 <= j < |refs| ==> (refs[j] in woken <==> IsDue(procs, refs[j]))
  {
    forall j | 0 <= j < |refs| ensures refs[j] in woken <==> IsDue(procs, refs[j]) {
      assert refs[j] in multiset(woken) <==> refs[j] in multiset(Due(refs, before, |refs|));
      DueMembers(refs, before, |refs|, refs[j]);
    }
  }

  lemma SplitSleepers(procs: seq<Proc>, refs: seq<nat>, before: seq<Proc>, woken: seq<nat>, sleeping: seq<nat>)
    requires Distinct(sleeping) && |refs| <= |sleeping| && refs == sleeping[..|refs|]
    requires |before| == |refs| && multiset(woken) == multiset(Due(refs, before, |refs|))
    requires forall j :: 0 <= j < |refs| ==> refs[j] < |procs| && before[j] == procs[refs[j]]
    ensures Others(sleeping, woken) == StillAsleep(procs, refs) + sleeping[|refs|..]
  {
    var late := sleeping[|refs|..];
    assert sleeping == refs + late;
    assert Distinct(refs) by {
      assert forall i :: 0 <= i < |refs| ==> refs[i] == sleeping[i];
    }
    LateAreNew(refs, late, sleeping);
    hide Distinct, Due, Others, StillAsleep;
    OthersConcat(refs, late, woken);
    WokenAreTheDue(procs, refs, before, woken);
    OthersAreStillAsleep(procs, refs, woken);
    WokenAreSleepers(refs, before, woken);
    OthersAll(late, woken);
  }

  lemma LateAreNew(refs: seq<nat>, late: seq<nat>, sleeping: seq<nat>)
    requires Distinct(sleeping) && sleeping == refs + late
    ensures forall p :: p in late ==> p !in refs
  {
    forall p | p in late ensures p !in refs {
      var k :| 0 <= k < |late| && late[k] == p;
      assert sleeping[|refs| + k] == p;
      assert forall i :: 0 <= i < |refs| ==> refs[i] == sleeping[i];
    }
  }

  // ---------------------------------------------------------------------------------------------
  // How long a sleep lasts

  /** Between rounds every sleeper is WAITING, with the rest of its sleep still to go. */
  lemma SleepersWaitBetweenRounds(s: System, p: nat)
    requires IsReachable(s) && s.ticker.Resting? && p in s.sh.sleeping
    ensures p < |s.sh.procs| == |s.sh.parkedAt|
    ensures s.sh.procs[p].state == WAITING
    ensures 0 < s.sh.procs[p].sleepRemaining == LastSleep(s.sh.procs[p]) - (s.sh.tick - s.sh.parkedAt[p])
  {
    ReachableInv(s);
    hide IsReachable, Partition, SlotsOk, PidsOk, CoresOk, ReadyOk, FinishedOk, LastSleep;
    var j :| 0 <= j < |s.sh.sleeping| && s.sh.sleeping[j] == p;
    assert NotInRound(s.sh, s.sh.sleeping[j]);
    assert Good(s.sh.procs[p]);
  }

  /** How many rounds have ended that began after `since` rounds had. */
  function RoundsEnded(since: nat, t: System): int {
    t.sh.tick - since - if t.ticker.Resting? then 0 else 1
  }

  /** A sleeper has not slept through as many rounds as it asked for. */
  lemma SleeperIsNotDone(s: System, p: nat)
    requires Inv(s) && p in s.sh.sleeping
    ensures p < |s.sh.procs| == |s.sh.parkedAt|
    ensures RoundsEnded(s.sh.parkedAt[p], s) < LastSleep(s.sh.procs[p])
  {
    hide Partition, SlotsOk, PidsOk, CoresOk, ReadyOk, FinishedOk, LastSleep;
    var sleepers := SnapshotOf(s.ticker);
    var j :| 0 <= j < |s.sh.sleeping| && s.sh.sleeping[j] == p;
    if j < |sleepers| {
      assert sleepers[j] == p;
      assert InRound(s.sh, sleepers[j], BeforeOf(s.ticker)[j], j < Ticked(s.ticker));
      TickSleepStep(BeforeOf(s.ticker)[j]);
      assert LastSleep(s.sh.procs[p]) == LastSleep(BeforeOf(s.ticker)[j]) by { LastSleepIsKept(BeforeOf(s.ticker)[j]); }
    } else {
      assert NotInRound(s.sh, s.sh.sleeping[j]);
      assert Good(s.sh.procs[p]);
    }
  }

  lemma LastSleepIsKept(p: Proc)
    ensures LastSleep(TickSleep(p)) == LastSleep(p)
  {
  }

  /** One step of anybody leaves a sleeper asleep, unless it is the rebuild of the round in which the
      sleeper has had as many ticks as it asked for. */
  lemma SleeperStep(s: System, l: Label, p: nat)
    requires Inv(s) && AdmissibleLabel(l) && p in s.sh.sleeping
    ensures p < |s.sh.procs| <= |Apply(s, l).sh.procs| && p < |s.sh.parkedAt| <= |Apply(s, l).sh.parkedAt|
    ensures var s' := Apply(s, l);
            && LastSleep(s'.sh.procs[p]) == LastSleep(s.sh.procs[p])
            && s'.sh.parkedAt[p] == s.sh.parkedAt[p]
            && (p in s'.sh.sleeping ||
                (p in s'.sh.ready && s'.ticker.Resting? && s'.sh.tick == s.sh.tick == s.sh.parkedAt[p] + LastSleep(s.sh.procs[p])))
  {
    hide Inv;
    assert p < |s.sh.procs| == |s.sh.parkedAt| by { SleeperExists(s, p); }
    match l
    case CoreTurn(i) => if i < |s.cores| { SleeperDuringCoreTurn(s, i, p); }
    case TickTurn => SleeperDuringTick(s, p);
    case MakerTurn(j, d) =>
  }

  lemma SleeperExists(s: System, p: nat)
    requires Inv(s) && p in s.sh.sleeping
    ensures p < |s.sh.procs| == |s.sh.parkedAt|
  {
    hide SlotsOk, PidsOk, CoresOk, ReadyOk, FinishedOk, ProcsOk, SleepersOk;
    SleepingExclusively(s.sh, s.cores);
  }

  lemma SleeperDuringCoreTurn(s: System, i: nat, p: nat)
    requires Inv(s) && i < |s.cores| && p in s.sh.sleeping
    ensures p < |s.sh.procs| == |s.sh.parkedAt|
    ensures var s' := Apply(s, CoreTurn(i));
            && |s'.sh.procs| == |s.sh.procs| && s'.sh.procs[p] == s.sh.procs[p]
            && |s'.sh.parkedAt| == |s.sh.parkedAt| && s'.sh.parkedAt[p] == s.sh.parkedAt[p]
            && p in s'.sh.sleeping
  {
    hide SlotsOk, PidsOk, ReadyOk, FinishedOk, ProcsOk, SleepersOk, CoreOk, CoreStep, Partition;
    SleeperExists(s, p);
    SleepingExclusively(s.sh, s.cores);
    CurrentIsHeld(s, i);
    OtherCoreStep(s.cfg, i, s.sh, s.cores[i], p);
  }

  /** A core touches only its current process. */
  lemma OtherCoreStep(cfg: Config, i: nat, sh: Shared, c: Core, p: nat)
    requires p < |sh.procs| == |sh.parkedAt| && p in sh.sleeping && c.current != Some(p)
    ensures var next := CoreStep(cfg, i, sh, c).0;
            && |next.procs| == |sh.procs| && next.procs[p] == sh.procs[p]
            && |next.parkedAt| == |sh.parkedAt| && next.parkedAt[p] == sh.parkedAt[p]
            && p in next.sleeping
  {
    hide ExecuteNext, SlotOf;
  }

  lemma SleeperDuringRebuild(s: System, p: nat)
    requires Inv(s) && p in s.sh.sleeping && s.ticker.Rebuilding?
    ensures p < |s.sh.procs| == |s.sh.parkedAt|
    ensures var sh := Rebuild(s.sh, s.ticker.woken);
            p in sh.sleeping || (p in sh.ready && s.sh.tick == s.sh.parkedAt[p] + LastSleep(s.sh.procs[p]))
  {
    hide Inv, LastSleep, Those, Others, Due, Sleeps;
    WokenAreTracked(s);
    SplitKeepsAll(s.sh.sleeping, s.ticker.woken);
    var j :| 0 <= j < |s.sh.sleeping| && s.sh.sleeping[j] == p;
    EndOfRound(s, j);
  }

  lemma RebuildChangesLists(s: System)
    requires s.ticker.Rebuilding?
    ensures Apply(s, TickTurn) == s.(sh := Rebuild(s.sh, s.ticker.woken), ticker := Resting)
    ensures var sh := Rebuild(s.sh, s.ticker.woken);
            sh.procs == s.sh.procs && sh.parkedAt == s.sh.parkedAt && sh.tick == s.sh.tick
  {
    hide Those, Others;
  }

  /** Outside the rebuild the tick thread moves no sleeper. */
  lemma TickKeepsSleepers(s: System, p: nat)
    requires p < |s.sh.procs| && !s.ticker.Rebuilding?
    ensures var s' := Apply(s, TickTurn);
            && |s'.sh.procs| == |s.sh.procs| && LastSleep(s'.sh.procs[p]) == LastSleep(s.sh.procs[p])
            && s'.sh.parkedAt == s.sh.parkedAt && s'.sh.sleeping == s.sh.sleeping
  {
    hide WakeOrder, Snapshot;
  }

  lemma SleeperDuringTick(s: System, p: nat)
    requires Inv(s) && p in s.sh.sleeping
    ensures p < |s.sh.procs| == |s.sh.parkedAt|
    ensures var s' := Apply(s, TickTurn);
            && |s'.sh.procs| == |s.sh.procs| && LastSleep(s'.sh.procs[p]) == LastSleep(s.sh.procs[p])
            && s'.sh.parkedAt == s.sh.parkedAt
            && (p in s'.sh.sleeping ||
                (p in s'.sh.ready && s'.ticker.Resting? && s'.sh.tick == s.sh.tick == s.sh.parkedAt[p] + LastSleep(s.sh.procs[p])))
  {
    hide Inv, LastSleep, Apply, Rebuild;
    SleeperExists(s, p);
    if s.ticker.Rebuilding? {
      SleeperDuringRebuild(s, p);
      RebuildChangesLists(s);
    } else {
      TickKeepsSleepers(s, p);
    }
  }

  /** `p` is asleep all along a schedule. */
  ghost predicate SleepsThrough(s: System, schedule: seq<Label>, p: nat) {
    && p in Execute(s, schedule).sh.sleeping
    && (schedule != [] ==> SleepsThrough(s, schedule[..|schedule| - 1], p))
  }

  /** The state in which a core has just parked a process. */
  ghost predicate JustParked(s: System, p: nat) {
    p in s.sh.sleeping && p < |s.sh.procs| && p < |s.sh.parkedAt| && s.sh.parkedAt[p] == s.sh.tick
  }

  /** The atomic that the process has run last is SLEEP(x). */
  predicate HasRunSleep(p: Proc, x: nat) {
    && 0 < p.line <= |p.code|
    && p.code[p.line - 1].Sleep? && p.code[p.line - 1].ticks == x
  }

  lemma LastSleepIs(p: Proc, x: nat)
    requires HasRunSleep(p, x)
    ensures LastSleep(p) == x
  {
  }

  lemma ParkingCore(s: System, i: nat)
    requires Inv(s) && i < |s.cores| && s.cores[i].pc == Parking
    ensures s.cores[i].current.Some?
    ensures var p := s.cores[i].current.value;
            && p < |s.sh.procs| == |s.sh.parkedAt| && p !in s.sh.sleeping
            && s.sh.procs[p].sleepRemaining > 0 && HasRunSleep(s.sh.procs[p], s.sh.procs[p].sleepRemaining)
  {
    hide SlotsOk, PidsOk, ReadyOk, FinishedOk, SleepersOk, Partition, Progress, SliceAfterCall, CoresOk;
    CoreIsOk(s, i);
    HeldExclusively(s.sh, s.cores, i, s.cores[i].current.value);
    assert Good(s.sh.procs[s.cores[i].current.value]);
  }

  /** A core parks its process behind the other sleepers, in the round that is current, with a real
      sleep to come. */
  lemma ParkingStartsSleep(s: System, i: nat)
    requires IsReachable(s) && i < |s.cores| && s.cores[i].pc == Parking
    ensures s.cores[i].current.Some?
    ensures var p, t := s.cores[i].current.value, Apply(s, CoreTurn(i));
            && JustParked(t, p) && t.sh.sleeping == s.sh.sleeping + [p]
            && t.sh.procs == s.sh.procs
            && t.sh.procs[p].sleepRemaining > 0 && HasRunSleep(t.sh.procs[p], t.sh.procs[p].sleepRemaining)
  {
    ReachableInv(s);
    hide IsReachable, Inv, HasRunSleep, SlotOf;
    ParkingCore(s, i);
  }

  /** SLEEP(x) lasts exactly x rounds, and no wakeup is lost. A process that has run SLEEP(x) and has
      just been parked is asleep all along a schedule if and only if fewer than x of the rounds that
      began since have ended; with the end of the x-th it is in the ready queue. This holds of every
      schedule, whatever the others do meanwhile. */
  lemma ExactSleep(s: System, schedule: seq<Label>, p: nat, x: nat)
    requires IsReachable(s) && AdmissibleSchedule(schedule) && JustParked(s, p)
    requires HasRunSleep(s.sh.procs[p], x)
    ensures SleepsThrough(s, schedule, p) <==> RoundsEnded(s.sh.tick, Execute(s, schedule)) < x
    ensures schedule != [] && SleepsThrough(s, schedule[..|schedule| - 1], p) && !SleepsThrough(s, schedule, p) ==>
              p in Execute(s, schedule).sh.ready && RoundsEnded(s.sh.tick, Execute(s, schedule)) == x
  {
    ReachableInv(s);
    LastSleepIs(s.sh.procs[p], x);
    hide Inv, IsReachable, Apply, LastSleep, SleepsThrough, JustParked, RoundsEnded, HasRunSleep;
    SleepOrWake(s, schedule, p);
    if schedule != [] && SleepsThrough(s, schedule[..|schedule| - 1], p) {
      WakesInTime(s, schedule, p);
    }
  }

  /** The sleep so far: nothing has changed about the sleeper but the rounds that have gone by. */
  lemma {:induction false} StaysAsleep(s: System, schedule: seq<Label>, p: nat)
    requires Inv(s) && AdmissibleSchedule(schedule) && SleepsThrough(s, schedule, p)
    requires p < |s.sh.procs| && p < |s.sh.parkedAt|
    ensures var t := Execute(s, schedule);
            && Inv(t) && p in t.sh.sleeping && p < |t.sh.procs| && p < |t.sh.parkedAt|
            && LastSleep(t.sh.procs[p]) == LastSleep(s.sh.procs[p]) && t.sh.parkedAt[p] == s.sh.parkedAt[p]
  {
    hide Inv, Apply, LastSleep;
    ExecuteKeepsInv(s, schedule);
    if schedule == [] {
      assert p in Execute(s, schedule[..0]).sh.sleeping;
    } else {
      var n := |schedule| - 1;
      hide SleepsThrough;
      StaysAsleep(s, schedule[..n], p);
      SleeperStep(Execute(s, schedule[..n]), schedule[n], p);
    }
  }

  lemma WakesInTime(s: System, schedule: seq<Label>, p: nat)
    requires Inv(s) && AdmissibleSchedule(schedule) && JustParked(s, p)
    requires schedule != [] && SleepsThrough(s, schedule[..|schedule| - 1], p)
    ensures var t := Execute(s, schedule);
            p in t.sh.sleeping || (p in t.sh.ready && RoundsEnded(s.sh.tick, t) == LastSleep(s.sh.procs[p]))
  {
    hide Inv, Apply, LastSleep, SleepsThrough;
    var n := |schedule| - 1;
    StaysAsleep(s, schedule[..n], p);
    SleeperStep(Execute(s, schedule[..n]), schedule[n], p);
  }

  lemma RoundsOnlyEnd(s: System, l: Label, since: nat)
    ensures RoundsEnded(since, s) <= RoundsEnded(since, Apply(s, l))
  {
    hide Rebuild, WakeOrder, Snapshot, CoreStep;
    match l
    case CoreTurn(i) => if i < |s.cores| { CoresKeepTick(s.cfg, i, s.sh, s.cores[i]); }
    case TickTurn =>
      if s.ticker.Rebuilding? {
        RebuildChangesLists(s);
      }
    case MakerTurn(j, d) =>
  }

  lemma CoresKeepTick(cfg: Config, i: nat, sh: Shared, c: Core)
    ensures CoreStep(cfg, i, sh, c).0.tick == sh.tick
  {
    hide ExecuteNext, SlotOf;
  }

  lemma {:induction false} SleepOrWake(s: System, schedule: seq<Label>, p: nat)
    requires Inv(s) && AdmissibleSchedule(schedule) && JustParked(s, p)
    ensures SleepsThrough(s, schedule, p) <==>
            RoundsEnded(s.sh.tick, Execute(s, schedule)) < LastSleep(s.sh.procs[p])
  {
    hide Inv, Apply, LastSleep, RoundsEnded;
    var t := Execute(s, schedule);
    if schedule != [] && !SleepsThrough(s, schedule, p) {
      hide SleepsThrough;
      var n := |schedule| - 1;
      SleepOrWake(s, schedule[..n], p);
      RoundsOnlyEnd(Execute(s, schedule[..n]), schedule[n], s.sh.tick);
      if SleepsThrough(s, schedule[..n], p) {
        WakesInTime(s, schedule, p);
      }
    } else {
      assert SleepsThrough(s, schedule, p);
      hide SleepsThrough;
      StaysAsleep(s, schedule, p);
      SleeperIsNotDone(t, p);
    }
  }
}
