/** What holds in every reachable state of every system: any number of cores and creators, either
    policy, any quantum and delay, any schedule. */
module Outcomes {
  import opened Arithmetic
  import opened Instructions
  import opened History
  import opened Options
  import opened ProcessSpec
  import opened SchedulerSpec
  import opened Threads
  import opened Places
  import opened Invariant
  import opened Reachable

  // ---------------------------------------------------------------------------------------------
  // Conservation

  /** Every process is in exactly one place: the ready queue, the sleepers, the finished list or the
      hands of exactly one core. */
  lemma Conservation(s: System, p: nat)
    requires IsReachable(s)
    ensures multiset(s.sh.ready)[p] + multiset(s.sh.sleeping)[p] + multiset(s.sh.finished)[p] + HeldBag(s.cores)[p]
            == if p < |s.sh.procs| then 1 else 0
    ensures p < |s.sh.procs| ==>
              p in s.sh.ready || p in s.sh.sleeping || p in s.sh.finished || exists i :: 0 <= i < |s.cores| && Held(s.cores[i]) == Some(p)
  {
    ReachableInv(s);
    hide IsReachable, SlotsOk, SleepersOk, PidsOk, CoresOk, ReadyOk, FinishedOk, ProcsOk;
    PlaceCount(s.sh, s.cores, p);
    if p < |s.sh.procs| {
      SomewherePlaced(s.sh, s.cores, p);
    }
  }

  /** A preemption loses nobody: no core ever preempts under FCFS, whose `onPreempt` would drop the
      process, and under RR the process is not FINISHED, so the queue gets it back. */
  lemma PreemptionKeepsTheProcess(s: System, i: nat)
    requires IsReachable(s) && i < |s.cores| && s.cores[i].pc == Preempting
    ensures s.cfg.policy == RR
    ensures s.cores[i].current.Some?
    ensures var p := s.cores[i].current.value;
            && p < |s.sh.procs| && s.sh.procs[p].state == RUNNING
            && Apply(s, CoreTurn(i)).sh.ready == s.sh.ready + [p]
  {
    ReachableInv(s);
    hide IsReachable, SlotsOk, SleepersOk, PidsOk, ReadyOk, FinishedOk, ProcsOk, Partition;
    assert CoreOk(s.cfg, s.sh.procs, s.cores[i]);
  }

  /** A core that finishes its process puts it at the end of the finished list, and it is FINISHED. */
  lemma FinishingListsTheProcess(s: System, i: nat)
    requires IsReachable(s) && i < |s.cores| && s.cores[i].pc == Finishing
    ensures s.cores[i].current.Some?
    ensures var p, t := s.cores[i].current.value, Apply(s, CoreTurn(i));
            && p < |s.sh.procs| && s.sh.procs[p].state == FINISHED
            && t.sh.finished == s.sh.finished + [p] && t.sh.ready == s.sh.ready && t.sh.sleeping == s.sh.sleeping
            && t.cores[i].current == None
  {
    ReachableInv(s);
    hide IsReachable, Inv, SlotOf, SliceAfterCall;
    CoreIsOk(s, i);
  }

  // ---------------------------------------------------------------------------------------------
  // Exclusive and legal execution

  /** Whoever calls `executeNext` is the only one to hold the process, and the process is neither
      WAITING nor FINISHED. It is not in any list of the engine either. */
  lemma CallsAreExclusiveAndLegal(s: System, i: nat)
    requires IsReachable(s) && i < |s.cores| && Calls(s.cores[i])
    ensures var p := s.cores[i].current.value;
            && p < |s.sh.procs| && s.sh.procs[p].state != WAITING && s.sh.procs[p].state != FINISHED
            && p !in s.sh.ready && p !in s.sh.sleeping && p !in s.sh.finished
            && forall j :: 0 <= j < |s.cores| && j != i ==> Held(s.cores[j]) != Some(p)
  {
    ReachableInv(s);
    hide IsReachable, SlotsOk, SleepersOk, PidsOk, ReadyOk, FinishedOk, ProcsOk, Partition;
    assert CoreOk(s.cfg, s.sh.procs, s.cores[i]);
    HeldExclusively(s.sh, s.cores, i, s.cores[i].current.value);
  }

  /** Nothing that waits or has finished is queued, and nothing that waits stays on a core between
      two iterations. */
  lemma QueuedAndRetainedAreRunnable(s: System, p: nat)
    requires IsReachable(s)
    requires p in s.sh.ready || exists i :: 0 <= i < |s.cores| && s.cores[i].pc == Top && s.cores[i].current == Some(p)
    ensures p < |s.sh.procs| && (s.sh.procs[p].state == READY || s.sh.procs[p].state == RUNNING)
  {
    ReachableInv(s);
    hide IsReachable, SlotsOk, SleepersOk, PidsOk, FinishedOk, ProcsOk, Partition;
    if p in s.sh.ready {
      assert RunnableRef(s.sh.procs, p);
    } else {
      var i :| 0 <= i < |s.cores| && s.cores[i].pc == Top && s.cores[i].current == Some(p);
      assert CoreOk(s.cfg, s.sh.procs, s.cores[i]);
    }
  }

  /** The finished list holds exactly the FINISHED processes that their core has let go. */
  lemma FinishedListIsRight(s: System, p: nat)
    requires IsReachable(s) && p < |s.sh.procs| && forall i :: 0 <= i < |s.cores| ==> Held(s.cores[i]) != Some(p)
    ensures p in s.sh.finished <==> s.sh.procs[p].state == FINISHED
  {
    ReachableInv(s);
    hide IsReachable, SlotsOk, PidsOk, ProcsOk, Partition;
    SomewherePlaced(s.sh, s.cores, p);
    if p in s.sh.sleeping {
      SleepersAreNotFinished(s, p);
      SleepingExclusively(s.sh, s.cores);
    } else if p in s.sh.ready {
      assert RunnableRef(s.sh.procs, p);
      ReadyExclusively(s.sh, s.cores);
    }
  }

  lemma SleepersAreNotFinished(s: System, p: nat)
    requires Inv(s) && p in s.sh.sleeping
    ensures p < |s.sh.procs| && s.sh.procs[p].state != FINISHED
  {
    hide SlotsOk, PidsOk, ProcsOk, Partition, ReadyOk, FinishedOk, CoresOk, RoundOk;
    var sleepers := SnapshotOf(s.ticker);
    var j :| 0 <= j < |s.sh.sleeping| && s.sh.sleeping[j] == p;
    if j < |sleepers| {
      assert sleepers[j] == p;
      assert InRound(s.sh, sleepers[j], BeforeOf(s.ticker)[j], j < Ticked(s.ticker));
      TickSleepStep(BeforeOf(s.ticker)[j]);
    } else {
      assert NotInRound(s.sh, s.sh.sleeping[j]);
    }
  }

  // ---------------------------------------------------------------------------------------------
  // Slots

  lemma {:induction false} ContentsFit(slots: seq<Option<nat>>)
    ensures |Contents(slots)| <= |slots|
  {
    if slots != [] {
      ContentsFit(slots[..|slots| - 1]);
      assert |Bag(slots[|slots| - 1])| <= 1;
    }
  }

  function CpuUtilization(s: System): real {
    if s.cfg.numCpu == 0 then 0.0 else 100.0 * s.sh.coresUsed as real / s.cfg.numCpu as real
  }

  /** The used-core count is the number of taken slots, and slot i is empty or shows what core i
      holds. */
  lemma SlotBookkeeping(s: System)
    requires IsReachable(s)
    ensures |s.sh.slots| == |s.cores| == s.cfg.numCpu && s.sh.coresUsed == |Contents(s.sh.slots)|
    ensures forall i :: 0 <= i < |s.cores| ==> s.sh.slots[i] == None || s.sh.slots[i] == Held(s.cores[i])
    ensures 0 <= s.sh.coresUsed <= s.cfg.numCpu
  {
    ReachableInv(s);
    hide IsReachable, SleepersOk, PidsOk, ProcsOk, Partition, ReadyOk, FinishedOk, CoreOk, Held;
    ContentsFit(s.sh.slots);
    forall i | 0 <= i < |s.cores| ensures s.sh.slots[i] == None || s.sh.slots[i] == Held(s.cores[i]) {
      CurrentIsHeld(s, i);
    }
  }

  lemma UtilizationIsAPercentage(s: System)
    requires IsReachable(s)
    ensures 0.0 <= CpuUtilization(s) <= 100.0
  {
    assert 0 <= s.sh.coresUsed <= s.cfg.numCpu by { SlotBookkeeping(s); }
    hide IsReachable;
    if s.cfg.numCpu > 0 {
      Percentage(s.sh.coresUsed, s.cfg.numCpu);
    }
  }

  lemma {:induction false} FullWithoutGap(slots: seq<Option<nat>>)
    requires forall i :: 0 <= i < |slots| ==> slots[i].Some?
    ensures |Contents(slots)| == |slots|
  {
    if slots != [] {
      FullWithoutGap(slots[..|slots| - 1]);
      assert |Bag(slots[|slots| - 1])| == 1;
    }
  }

  lemma {:induction false} NotFullWithGap(slots: seq<Option<nat>>, i: nat)
    requires i < |slots| && slots[i].None?
    ensures |Contents(slots)| < |slots|
  {
    var n := |slots| - 1;
    if i == n {
      ContentsFit(slots[..n]);
    } else {
      NotFullWithGap(slots[..n], i);
      assert |Bag(slots[n])| <= 1;
    }
  }

  lemma ContentsFullIff(slots: seq<Option<nat>>)
    ensures |Contents(slots)| == |slots| <==> forall i :: 0 <= i < |slots| ==> slots[i].Some?
    ensures |Contents(slots)| == 0 <==> forall i :: 0 <= i < |slots| ==> slots[i].None?
  {
    hide Contents;
    if i :| 0 <= i < |slots| && slots[i].None? {
      NotFullWithGap(slots, i);
    } else {
      FullWithoutGap(slots);
    }
    if i :| 0 <= i < |slots| && slots[i].Some? {
      SlotIsInContents(slots, i);
      assert slots[i].value in Contents(slots);
    } else {
      EmptySlots(slots);
    }
  }

  lemma Share(used: int, total: nat)
    requires total > 0
    ensures 100.0 * used as real / total as real == 100.0 <==> used == total
    ensures 100.0 * used as real / total as real == 0.0 <==> used == 0
    ensures 100.0 * (used + 1) as real / total as real == 100.0 * used as real / total as real + 100.0 / total as real
  {
    var each := 100.0 / total as real;
    assert each * total as real == 100.0 && each > 0.0;
    assert 100.0 * used as real / total as real == each * used as real;
    assert 100.0 * (used + 1) as real / total as real == each * (used + 1) as real == each * used as real + each;
    if used < total {
      assert each * used as real < each * total as real;
    } else if used > total {
      assert each * used as real > each * total as real;
    }
    if used > 0 {
      assert each * used as real > 0.0;
    } else if used < 0 {
      assert each * used as real < 0.0;
    }
  }

  lemma UsedCores(s: System)
    requires Inv(s)
    ensures s.sh.coresUsed == s.cfg.numCpu <==> forall i :: 0 <= i < |s.cores| ==> s.cores[i].current.Some?
    ensures s.sh.coresUsed == 0 <==> forall i :: 0 <= i < |s.cores| ==> s.cores[i].current.None?
  {
    hide SleepersOk, PidsOk, ProcsOk, Partition, ReadyOk, FinishedOk, CoresOk, Contents;
    ContentsFullIff(s.sh.slots);
  }

  /** The utilization is 100 if and only if every core has a current process, and 0 if and only if none
      has. */
  lemma UtilizationTells(s: System)
    requires IsReachable(s) && s.cfg.numCpu > 0
    ensures CpuUtilization(s) == 100.0 <==> forall i :: 0 <= i < |s.cores| ==> s.cores[i].current.Some?
    ensures CpuUtilization(s) == 0.0 <==> forall i :: 0 <= i < |s.cores| ==> s.cores[i].current.None?
  {
    hide IsReachable, Inv;
    ReachableInv(s);
    UsedCores(s);
    Share(s.sh.coresUsed, s.cfg.numCpu);
  }

  /** A core that claims a process raises the utilization by the share of one core. */
  lemma ClaimRaisesUtilization(s: System, i: nat)
    requires IsReachable(s) && s.cfg.numCpu > 0 && i < |s.cores|
    requires s.cores[i].pc.Claim? || s.cores[i].pc.Reclaim?
    ensures CpuUtilization(Apply(s, CoreTurn(i))) == CpuUtilization(s) + 100.0 / s.cfg.numCpu as real
  {
    hide IsReachable, Inv, Apply;
    ReachableInv(s);
    ClaimTakesASlot(s, i);
    Share(s.sh.coresUsed, s.cfg.numCpu);
  }

  lemma ClaimTakesASlot(s: System, i: nat)
    requires Inv(s) && i < |s.cores| && (s.cores[i].pc.Claim? || s.cores[i].pc.Reclaim?)
    ensures var t := Apply(s, CoreTurn(i)); t.sh.coresUsed == s.sh.coresUsed + 1 && t.cfg == s.cfg
  {
    hide SleepersOk, PidsOk, ProcsOk, Partition, ReadyOk, FinishedOk, CoresOk, Contents;
    CoreIsOk(s, i);
    assert s.sh.slots[i] == None;
  }

  /** No process is in two slots. */
  lemma OneSlotEach(s: System, i: nat, j: nat)
    requires IsReachable(s) && i < j < |s.sh.slots| && s.sh.slots[i].Some?
    ensures s.sh.slots[i] != s.sh.slots[j]
  {
    ReachableInv(s);
    hide IsReachable, SleepersOk, PidsOk, ProcsOk, Partition, ReadyOk, FinishedOk, CoreOk, Held, Contents;
    CurrentIsHeld(s, i);
    CurrentIsHeld(s, j);
    HeldExclusively(s.sh, s.cores, i, s.sh.slots[i].value);
  }

  /** Search-and-clear gives back the caller's own slot and no other. */
  lemma ReleaseClearsOwnSlot(s: System, i: nat)
    requires IsReachable(s) && i < |s.cores| && s.cores[i].pc in {Finishing, Parking, Preempting}
    ensures i < |s.sh.slots| && s.sh.slots[i].Some?
    ensures var s' := Apply(s, CoreTurn(i));
            s'.sh.slots == s.sh.slots[i := None] && s'.sh.coresUsed == s.sh.coresUsed - 1
  {
    ReachableInv(s);
    hide IsReachable, Inv, Release, Apply;
    ReleasingCore(s, i);
    ReleaseOwnSlot(s, i);
    ReleaseAt(s.sh, s.cores[i].current.value, i);
    ReleasingStep(s, i);
  }

  lemma ReleasingCore(s: System, i: nat)
    requires Inv(s) && i < |s.cores| && s.cores[i].pc in {Finishing, Parking, Preempting}
    ensures s.cores[i].current.Some? && Held(s.cores[i]) == s.cores[i].current
    ensures i < |s.sh.slots| && s.sh.slots[i] == s.cores[i].current
  {
    hide SleepersOk, PidsOk, ProcsOk, Partition, ReadyOk, FinishedOk, SliceAfterCall, Contents;
    assert CoreOk(s.cfg, s.sh.procs, s.cores[i]);
  }

  lemma ReleaseAt(sh: Shared, p: nat, i: nat)
    requires i < |sh.slots| && SlotOf(sh.slots, p) == i
    ensures Release(sh, p).slots == sh.slots[i := None] && Release(sh, p).coresUsed == sh.coresUsed - 1
  {
  }

  lemma ReleasingStep(s: System, i: nat)
    requires i < |s.cores| && s.cores[i].pc in {Finishing, Parking, Preempting} && s.cores[i].current.Some?
    ensures var released := Release(s.sh, s.cores[i].current.value);
            var s' := Apply(s, CoreTurn(i));
            s'.sh.slots == released.slots && s'.sh.coresUsed == released.coresUsed
  {
  }

  // ---------------------------------------------------------------------------------------------
  // Schedule independence

  /** The line counter and what the stack still holds add up to the length of the program; the memory
      shows the meaning of the lines behind; FINISHED comes only at the end, and WAITING only with a
      sleep still to go. */
  lemma LifecycleHolds(s: System, p: nat)
    requires IsReachable(s) && p < |s.sh.procs|
    ensures var q := s.sh.procs[p];
            && q.total == |q.code| && q.line + |q.rest| == q.total
            && 0 <= q.line <= |q.code| && q.rest == q.code[q.line..]
            && Indistinguishable(q.memory, Meaning(q.name, q.code[..q.line])) && Shows(q.memory, q.name, q.code[..q.line])
            && (q.state == FINISHED ==> q.line == q.total)
            && (q.state == WAITING <==> q.sleepRemaining > 0)
  {
    ReachableInv(s);
    hide IsReachable, SlotsOk, SleepersOk, PidsOk, CoresOk, ReadyOk, FinishedOk, Partition, Indistinguishable, Meaning, Shows;
    assert Good(s.sh.procs[p]);
    ShowsHistory(s.sh.procs[p].memory, s.sh.procs[p].name, s.sh.procs[p].code[..s.sh.procs[p].line]);
  }

  /** A finished process shows the meaning of its program: its log has the lines that the program
      prints, and each variable reads as the last write to it, or as 0. */
  lemma FinishedShowsMeaning(s: System, p: nat)
    requires IsReachable(s) && p < |s.sh.procs| && s.sh.procs[p].state == FINISHED
    ensures var q := s.sh.procs[p];
            && q.line == q.total == |q.code|
            && Indistinguishable(q.memory, Meaning(q.name, q.code)) && Shows(q.memory, q.name, q.code)
  {
    ReachableInv(s);
    hide IsReachable, SlotsOk, SleepersOk, PidsOk, CoresOk, ReadyOk, FinishedOk, Partition, Indistinguishable, Meaning, Shows;
    FinishedIsFinal(s.sh.procs[p]);
    ShowsHistory(s.sh.procs[p].memory, s.sh.procs[p].name, s.sh.procs[p].code);
  }

  /** Two runs of the same program print the same and compute the same, on whatever machine and in
      whatever company they ran. */
  lemma ScheduleIndependence(s: System, p: nat, t: System, q: nat)
    requires IsReachable(s) && p < |s.sh.procs| && s.sh.procs[p].state == FINISHED
    requires IsReachable(t) && q < |t.sh.procs| && t.sh.procs[q].state == FINISHED
    requires s.sh.procs[p].name == t.sh.procs[q].name && s.sh.procs[p].code == t.sh.procs[q].code
    ensures var m, n := s.sh.procs[p].memory, t.sh.procs[q].memory;
            && m.log == n.log
            && forall x :: (if x in m.vars then m.vars[x] else 0) == (if x in n.vars then n.vars[x] else 0)
  {
    hide IsReachable;
    FinishedShowsMeaning(s, p);
    FinishedShowsMeaning(t, q);
    var m, n := s.sh.procs[p].memory, t.sh.procs[q].memory;
    forall x ensures (if x in m.vars then m.vars[x] else 0) == (if x in n.vars then n.vars[x] else 0) {
      assert (if x in m.vars then m.vars[x] else 0) == LastWrite(s.sh.procs[p].code, x);
    }
  }

  // ---------------------------------------------------------------------------------------------
  // Process ids

  /** No two processes share a PID, however the creators interleave. A PID that a creator has taken and
      not used yet is not that of any process, nor of any other creator, and none of them will be
      handed out again. */
  lemma PidsAreDistinct(s: System)
    requires IsReachable(s)
    ensures forall p, q :: 0 <= p < q < |s.sh.procs| ==> s.sh.procs[p].pid != s.sh.procs[q].pid
    ensures forall j, p :: 0 <= j < |s.makers| && 0 <= p < |s.sh.procs| ==> s.makers[j] != HasPid(s.sh.procs[p].pid)
    ensures forall j, k :: 0 <= j < k < |s.makers| && s.makers[j].HasPid? ==> s.makers[j] != s.makers[k]
    ensures forall p :: 0 <= p < |s.sh.procs| ==> s.sh.procs[p].pid < s.sh.nextPid
    ensures forall j :: 0 <= j < |s.makers| && s.makers[j].HasPid? ==> s.makers[j].pid < s.sh.nextPid
  {
    ReachableInv(s);
    hide IsReachable, SlotsOk, SleepersOk, CoresOk, ReadyOk, FinishedOk, ProcsOk, Partition;
    forall j, p | 0 <= j < |s.makers| && 0 <= p < |s.sh.procs| ensures s.makers[j] != HasPid(s.sh.procs[p].pid) {
      assert PendingPid(s.makers[j]) != Some(s.sh.procs[p].pid);
    }
    forall j, k | 0 <= j < k < |s.makers| && s.makers[j].HasPid? ensures s.makers[j] != s.makers[k] {
      assert PendingPid(s.makers[j]).Some? ==> PendingPid(s.makers[j]) != PendingPid(s.makers[k]);
    }
    forall j | 0 <= j < |s.makers| && s.makers[j].HasPid? ensures s.makers[j].pid < s.sh.nextPid {
      assert PendingPid(s.makers[j]).Some?;
    }
  }
}
