/** How far a process is from its end: a measure that no turn of any thread raises, and that the turn of
    a certain thread, its helper, lowers. */
module Distances {
  import opened Options
  import opened ProcessSpec
  import opened SchedulerSpec
  import opened Threads
  import opened Places
  import opened Invariant
  import opened Reachable
  import opened Rounds
  import opened Work
  import opened Queueing

  // ---------------------------------------------------------------------------------------------
  // How far a process is from its end. With each unit of fuel it goes from the call behind it to
  // sleep or to the queue, from sleep to the queue, and from the queue to the core that makes the
  // next call. In each of these stages some thread counts down.

  /** The core that has `p` in its hands, or the number of cores when none has. */
  function HolderOf(cores: seq<Core>, p: nat): nat {
    SlotOf(Hands(cores), p)
  }

  predicate BeforeCall(c: Core) {
    c.pc.Top? || c.pc.Gate? || c.pc.Claim? || c.pc.Reclaim?
  }

  function HandStage(c: Core): nat {
    if BeforeCall(c) then 1 else 4
  }

  /** How many turns of its core a process stays in its stage, before or after a call. */
  function TurnsToGo(c: Core): nat {
    match c.pc
    case Claim(_) => 1
    case Reclaim(_) => 1
    case CheckFinished => 4
    case CheckWaiting => 3
    case CheckQuantum => 2
    case Finishing => 1
    case Parking => 1
    case Preempting => 1
    case _ => c.delay
  }

  function IndexOf(list: seq<nat>, p: nat): nat {
    if list == [] || list[0] == p then 0 else 1 + IndexOf(list[1..], p)
  }

  /** How many turns of the tick thread it takes at most until the next tick of the sleeper at `index`. */
  function TicksToGo(t: Ticker, index: nat): int {
    match t
    case Resting => 1 + index
    case Rebuilding(_, _, _) => 2 + index
    case Collecting(sleepers, _, k, _) => 3 + index + |sleepers| - k
    case Ticking(sleepers, _, k) => if k <= index < |sleepers| then index - k else 4 + index + 2 * |sleepers| - k
  }

  datatype Distance = Distance(fuel: int, stage: nat, sleep: int, countdown: int) {
    predicate LessThan(d: Distance) {
      fuel < d.fuel || (fuel == d.fuel && (stage < d.stage || (stage == d.stage &&
        (sleep < d.sleep || (sleep == d.sleep && countdown < d.countdown)))))
    }
  }

  function DistanceOf(s: System, p: nat): Distance
    requires p < |s.sh.procs|
  {
    var fuel, sleep := Fuel(s.sh.procs[p]), s.sh.procs[p].sleepRemaining;
    var i := HolderOf(s.cores, p);
    if i < |s.cores| then Distance(fuel, HandStage(s.cores[i]), sleep, TurnsToGo(s.cores[i]))
    else if p in s.sh.ready then Distance(fuel, 2, sleep, WaitBudget(s, p))
    else if p in s.sh.sleeping then Distance(fuel, 3, sleep, TicksToGo(s.ticker, IndexOf(s.sh.sleeping, p)))
    else Distance(fuel, 0, sleep, 0)
  }

  /** A thread whose turn brings `p` nearer to its end. */
  function Helper(s: System, p: nat): Label {
    var i := HolderOf(s.cores, p);
    if i < |s.cores| then CoreTurn(i) else if p in s.sh.ready then CoreTurn(0) else TickTurn
  }

  // ---------------------------------------------------------------------------------------------
  // The distance in each place

  lemma NobodyHolds(cores: seq<Core>, p: nat)
    requires forall i :: 0 <= i < |cores| ==> Held(cores[i]) != Some(p)
    ensures HolderOf(cores, p) == |cores|
  {
    SlotOfUnique(Hands(cores), p, |cores|);
  }

  lemma InHands(s: System, p: nat, i: nat)
    requires Inv(s) && i < |s.cores| && Held(s.cores[i]) == Some(p)
    ensures p < |s.sh.procs| && p !in s.sh.finished && Helper(s, p) == CoreTurn(i)
    ensures DistanceOf(s, p) ==
            Distance(Fuel(s.sh.procs[p]), HandStage(s.cores[i]), s.sh.procs[p].sleepRemaining, TurnsToGo(s.cores[i]))
  {
    hide SlotsOk, PidsOk, ReadyOk, FinishedOk, CoresOk, SleepersOk, ProcsOk, Held, Partition, SlotOf;
    HeldExclusively(s.sh, s.cores, i, p);
    SlotOfUnique(Hands(s.cores), p, i);
  }

  lemma InQueue(s: System, p: nat)
    requires Inv(s) && p in s.sh.ready
    ensures p < |s.sh.procs| && p !in s.sh.finished && Helper(s, p) == CoreTurn(0)
    ensures DistanceOf(s, p) == Distance(Fuel(s.sh.procs[p]), 2, s.sh.procs[p].sleepRemaining, WaitBudget(s, p))
  {
    hide SlotsOk, PidsOk, ReadyOk, FinishedOk, CoresOk, SleepersOk, ProcsOk, Held, Partition, SlotOf;
    ReadyExclusively(s.sh, s.cores);
    NobodyHolds(s.cores, p);
  }

  lemma InBed(s: System, p: nat)
    requires Inv(s) && p in s.sh.sleeping
    ensures p < |s.sh.procs| && p !in s.sh.finished && Helper(s, p) == TickTurn
    ensures DistanceOf(s, p) ==
            Distance(Fuel(s.sh.procs[p]), 3, s.sh.procs[p].sleepRemaining, TicksToGo(s.ticker, IndexOf(s.sh.sleeping, p)))
  {
    hide SlotsOk, PidsOk, ReadyOk, FinishedOk, CoresOk, SleepersOk, ProcsOk, Held, Partition, SlotOf;
    SleepingExclusively(s.sh, s.cores);
    NobodyHolds(s.cores, p);
  }

  lemma AtTheEnd(s: System, p: nat)
    requires Inv(s) && p in s.sh.finished
    ensures p < |s.sh.procs| && s.sh.procs[p].state == FINISHED
    ensures DistanceOf(s, p) == Distance(Fuel(s.sh.procs[p]), 0, s.sh.procs[p].sleepRemaining, 0)
  {
    hide SlotsOk, PidsOk, ReadyOk, CoresOk, SleepersOk, ProcsOk, Held, Partition, SlotOf;
    ReadyExclusively(s.sh, s.cores);
    SleepingExclusively(s.sh, s.cores);
    forall i | 0 <= i < |s.cores| ensures Held(s.cores[i]) != Some(p) {
      if Held(s.cores[i]) == Some(p) {
        HeldExclusively(s.sh, s.cores, i, p);
      }
    }
    NobodyHolds(s.cores, p);
  }

  lemma DistanceIsNatural(s: System, p: nat)
    requires Inv(s) && p < |s.sh.procs|
    ensures var d := DistanceOf(s, p); d.fuel >= 0 && d.sleep >= 0 && d.countdown >= 0
  {
    hide Inv, WaitBudget, TicksToGo, Fuel, TurnsToGo, HolderOf, HandStage, IndexOf;
    GoodFuel(s, p);
    SleepIsNatural(s, p);
    WaitBudgetIsNatural(s, p);
    TicksToGoIsNatural(s, IndexOf(s.sh.sleeping, p));
  }

  lemma TicksToGoIsNatural(s: System, index: nat)
    requires Inv(s)
    ensures TicksToGo(s.ticker, index) >= 0
  {
    hide Inv;
    RoundHolds(s);
  }

  lemma SleepIsNatural(s: System, p: nat)
    requires Inv(s) && p < |s.sh.procs|
    ensures s.sh.procs[p].sleepRemaining >= 0
  {
    hide SlotsOk, PidsOk, ReadyOk, FinishedOk, CoresOk, Partition, SleepersOk, Progress;
    assert Good(s.sh.procs[p]);
  }

  lemma RoundHolds(s: System)
    requires Inv(s)
    ensures RoundOk(s.sh.procs, s.ticker)
  {
    hide SlotsOk, PidsOk, ReadyOk, FinishedOk, CoresOk, Partition, ProcsOk, RoundOk;
  }

  // ---------------------------------------------------------------------------------------------
  // Turns of the core that holds the process

  lemma HandStep(cfg: Config, i: nat, sh: Shared, c: Core, p: nat)
    requires CoreOk(cfg, sh.procs, c) && Held(c) == Some(p) && !Calls(c)
    ensures var (sh', c') := CoreStep(cfg, i, sh, c);
            if Held(c') == Some(p) then
              HandStage(c') < HandStage(c) || (HandStage(c') == HandStage(c) && TurnsToGo(c') < TurnsToGo(c))
            else
              HandStage(c) == 4 && (p in sh'.finished || p in sh'.sleeping || p in sh'.ready)
  {
    hide SlotOf, SliceBetweenCalls, ExecuteNext;
  }

  lemma OwnTurn(s: System, p: nat, i: nat)
    requires Inv(s) && i < |s.cores| && Held(s.cores[i]) == Some(p)
    ensures var s' := Apply(s, CoreTurn(i));
            p < |s.sh.procs| && p < |s'.sh.procs| && DistanceOf(s', p).LessThan(DistanceOf(s, p))
  {
    hide Inv, CoreStep, TurnsToGo, HandStage, Fuel, WaitBudget, TicksToGo, DistanceOf, Held, Calls;
    var s' := Apply(s, CoreTurn(i));
    var c := s.cores[i];
    var c' := CoreStep(s.cfg, i, s.sh, c).1;
    InHands(s, p, i);
    ApplyKeepsInv(s, CoreTurn(i));
    CoreIsOk(s, i);
    FuelStep(s, CoreTurn(i), p);
    if Calls(c) {
      CallerCallsHeld(s, i);
      DistanceFuel(s, p);
      DistanceFuel(s', p);
    } else {
      CoreTurnOnProcs(s, i);
      HandStep(s.cfg, i, s.sh, c, p);
      assert s'.cores[i] == c';
      if Held(c') == Some(p) {
        InHands(s', p, i);
      } else if p in s'.sh.finished {
        AtTheEnd(s', p);
      } else if p in s'.sh.sleeping {
        InBed(s', p);
      } else {
        InQueue(s', p);
      }
    }
  }

  lemma CallerCallsHeld(s: System, i: nat)
    requires i < |s.cores| && Calls(s.cores[i])
    ensures Called(s, CoreTurn(i)) == Held(s.cores[i])
  {
  }

  lemma DistanceFuel(s: System, p: nat)
    requires p < |s.sh.procs|
    ensures DistanceOf(s, p).fuel == Fuel(s.sh.procs[p])
  {
  }

  // ---------------------------------------------------------------------------------------------
  // Turns of the other cores

  /** A core leaves the processes of others alone. */
  lemma OthersProcess(s: System, p: nat, i: nat)
    requires Inv(s) && i < |s.cores| && p < |s.sh.procs| && Held(s.cores[i]) != Some(p)
    ensures var procs := Apply(s, CoreTurn(i)).sh.procs; |procs| == |s.sh.procs| && procs[p] == s.sh.procs[p]
  {
    hide Inv, CoreStep, Good, ExecuteNext, Runnable, Held;
    CoreTurnOnProcs(s, i);
    CurrentIsHeld(s, i);
  }

  lemma OtherTurnHeld(s: System, p: nat, j: nat, i: nat)
    requires Inv(s) && i < |s.cores| && j < |s.cores| && i != j && Held(s.cores[j]) == Some(p)
    ensures var s' := Apply(s, CoreTurn(i));
            && p < |s.sh.procs| && p < |s'.sh.procs|
            && DistanceOf(s', p) == DistanceOf(s, p) && Helper(s', p) == Helper(s, p)
  {
    InHands(s, p, j);
    assert Held(s.cores[i]) != Some(p) by { OnlyHolder(s, j, i, p); }
    OthersProcess(s, p, i);
    ApplyKeepsInv(s, CoreTurn(i));
    hide Inv, CoreStep, TurnsToGo, HandStage, Fuel, Held, DistanceOf, Helper;
    InHands(Apply(s, CoreTurn(i)), p, j);
  }

  /** A process leaves the queue only for the core that pops it. */
  lemma PopperHolds(cfg: Config, i: nat, sh: Shared, c: Core, p: nat)
    requires CoreOk(cfg, sh.procs, c) && p in sh.ready && p !in CoreStep(cfg, i, sh, c).0.ready
    ensures var c' := CoreStep(cfg, i, sh, c).1; Held(c') == Some(p) && HandStage(c') == 1
  {
    hide SlotOf, SliceBetweenCalls, SliceAfterCall, ExecuteNext;
    InTail(sh.ready, p);
  }

  lemma InTail(list: seq<nat>, p: nat)
    requires p in list
    ensures list[0] == p || p in list[1..]
  {
    assert list == [list[0]] + list[1..];
  }

  lemma QueuedIsNotHeld(s: System, p: nat, i: nat)
    requires Inv(s) && p in s.sh.ready && i < |s.cores|
    ensures Held(s.cores[i]) != Some(p)
  {
    hide SlotsOk, PidsOk, ReadyOk, FinishedOk, CoresOk, SleepersOk, ProcsOk, Partition;
    ReadyExclusively(s.sh, s.cores);
  }

  lemma CoreTurnQueued(s: System, p: nat, i: nat)
    requires Inv(s) && i < |s.cores| && p in s.sh.ready
    ensures var s' := Apply(s, CoreTurn(i));
            p < |s.sh.procs| && p < |s'.sh.procs| && DistanceOf(s', p).LessThan(DistanceOf(s, p))
  {
    InQueue(s, p);
    QueuedIsNotHeld(s, p, i);
    OthersProcess(s, p, i);
    ApplyKeepsInv(s, CoreTurn(i));
    CoreIsOk(s, i);
    hide Inv, CoreStep, TurnsToGo, HandStage, Fuel, Held, DistanceOf, Helper, WaitBudget, CoreOk;
    var s' := Apply(s, CoreTurn(i));
    if p in s'.sh.ready {
      WaitBudgetStep(s, CoreTurn(i), p);
      InQueue(s', p);
    } else {
      PopperHolds(s.cfg, i, s.sh, s.cores[i], p);
      InHands(s', p, i);
    }
  }

  /** A core parks behind the other sleepers. */
  lemma ParksLast(cfg: Config, i: nat, sh: Shared, c: Core)
    ensures sh.sleeping <= CoreStep(cfg, i, sh, c).0.sleeping
  {
    hide SlotOf, ExecuteNext;
  }

  lemma {:induction false} IndexInFront(list: seq<nat>, more: seq<nat>, p: nat)
    requires p in list
    ensures IndexOf(list + more, p) == IndexOf(list, p)
  {
    if list[0] != p {
      assert (list + more)[1..] == list[1..] + more;
      IndexInFront(list[1..], more, p);
    }
  }

  lemma CoreTurnAsleep(s: System, p: nat, i: nat)
    requires Inv(s) && i < |s.cores| && p in s.sh.sleeping
    ensures var s' := Apply(s, CoreTurn(i));
            && p < |s.sh.procs| && p < |s'.sh.procs|
            && DistanceOf(s', p) == DistanceOf(s, p) && Helper(s', p) == Helper(s, p)
  {
    hide Inv, CoreStep, Fuel, DistanceOf, Helper, TicksToGo, IndexOf;
    var s' := Apply(s, CoreTurn(i));
    InBed(s, p);
    ApplyKeepsInv(s, CoreTurn(i));
    SleeperDuringCoreTurn(s, i, p);
    ParksLast(s.cfg, i, s.sh, s.cores[i]);
    assert s'.ticker == s.ticker && s.sh.sleeping <= s'.sh.sleeping;
    hide Apply;
    var more := s'.sh.sleeping[|s.sh.sleeping|..];
    assert s'.sh.sleeping == s.sh.sleeping + more;
    IndexInFront(s.sh.sleeping, more, p);
    InBed(s', p);
  }

  // ---------------------------------------------------------------------------------------------
  // Turns of the tick thread

  lemma TicksOnlySleepers(s: System, p: nat)
    requires Inv(s) && p < |s.sh.procs| && p !in s.sh.sleeping
    ensures var procs := Apply(s, TickTurn).sh.procs; |procs| == |s.sh.procs| && procs[p] == s.sh.procs[p]
  {
    hide Inv, TickStep, Good, TickSleep;
    var q := TickTurnOnProcs(s);
  }

  lemma TickTurnHeld(s: System, p: nat, j: nat)
    requires Inv(s) && j < |s.cores| && Held(s.cores[j]) == Some(p)
    ensures var s' := Apply(s, TickTurn);
            && p < |s.sh.procs| && p < |s'.sh.procs|
            && DistanceOf(s', p) == DistanceOf(s, p) && Helper(s', p) == Helper(s, p)
  {
    InHands(s, p, j);
    assert p !in s.sh.sleeping by { SleeperIsNotHeld(s, p, j); }
    TicksOnlySleepers(s, p);
    ApplyKeepsInv(s, TickTurn);
    hide Inv, TickStep, TurnsToGo, HandStage, Fuel, Held, DistanceOf, Helper;
    InHands(Apply(s, TickTurn), p, j);
  }

  lemma SleeperIsNotHeld(s: System, p: nat, j: nat)
    requires Inv(s) && j < |s.cores| && Held(s.cores[j]) == Some(p)
    ensures p !in s.sh.sleeping
  {
    hide SlotsOk, PidsOk, ReadyOk, FinishedOk, CoresOk, SleepersOk, ProcsOk, Partition;
    HeldExclusively(s.sh, s.cores, j, p);
  }

  lemma TickKeepsQueued(s: System, p: nat)
    requires p in s.sh.ready
    ensures p in Apply(s, TickTurn).sh.ready
  {
    hide Those, Others, WakeOrder, Snapshot, TickSleep;
  }

  lemma TickTurnQueued(s: System, p: nat)
    requires Inv(s) && p in s.sh.ready
    ensures var s' := Apply(s, TickTurn);
            && p < |s.sh.procs| && p < |s'.sh.procs| && Helper(s', p) == Helper(s, p)
            && (DistanceOf(s', p) == DistanceOf(s, p) || DistanceOf(s', p).LessThan(DistanceOf(s, p)))
  {
    InQueue(s, p);
    assert p !in s.sh.sleeping by { QueuedIsNotAsleep(s, p); }
    TicksOnlySleepers(s, p);
    ApplyKeepsInv(s, TickTurn);
    TickKeepsQueued(s, p);
    hide Inv, TickStep, Fuel, DistanceOf, Helper, WaitBudget;
    WaitBudgetStep(s, TickTurn, p);
    InQueue(Apply(s, TickTurn), p);
  }

  lemma QueuedIsNotAsleep(s: System, p: nat)
    requires Inv(s) && p in s.sh.ready
    ensures p !in s.sh.sleeping
  {
    hide SlotsOk, PidsOk, ReadyOk, FinishedOk, CoresOk, SleepersOk, ProcsOk, Partition;
    ReadyExclusively(s.sh, s.cores);
  }

  lemma {:induction false} IndexIsThere(list: seq<nat>, p: nat)
    requires p in list
    ensures IndexOf(list, p) < |list| && list[IndexOf(list, p)] == p
  {
    if list[0] != p {
      IndexIsThere(list[1..], p);
    }
  }

  /** Whoever stays behind at a rebuild moves up. */
  lemma {:induction false} MovesUp(list: seq<nat>, woken: seq<nat>, p: nat)
    requires p in list && p !in woken
    ensures p in Others(list, woken) && IndexOf(Others(list, woken), p) <= IndexOf(list, p)
  {
    var n := |list| - 1;
    var front := list[..n];
    assert list == front + [list[n]];
    if p in front {
      MovesUp(front, woken, p);
      IndexInFront(front, [list[n]], p);
      IndexInFront(Others(front, woken), [list[n]], p);
    } else {
      OthersAreFewer(front, woken);
      SplitKeepsAll(front, woken);
      IndexAtEnd(front, p);
      IndexAtEnd(Others(front, woken), p);
    }
  }

  lemma {:induction false} OthersAreFewer(list: seq<nat>, woken: seq<nat>)
    ensures |Others(list, woken)| <= |list|
  {
    if list != [] {
      OthersAreFewer(list[..|list| - 1], woken);
    }
  }

  lemma {:induction false} IndexAtEnd(list: seq<nat>, p: nat)
    requires p !in list
    ensures IndexOf(list + [p], p) == |list|
  {
    if list != [] {
      assert (list + [p])[1..] == list[1..] + [p];
      IndexAtEnd(list[1..], p);
    }
  }

  /** Where the sleeper stands in a round. */
  lemma SnapshotIndex(s: System, p: nat)
    requires Inv(s) && p in s.sh.sleeping && s.ticker.Ticking? && s.ticker.k < |s.ticker.sleepers|
    ensures s.ticker.sleepers[s.ticker.k] == p <==> s.ticker.k == IndexOf(s.sh.sleeping, p)
    ensures s.ticker.sleepers[s.ticker.k] in s.sh.sleeping
  {
    hide SlotsOk, PidsOk, ReadyOk, FinishedOk, CoresOk, ProcsOk, Partition, InRound, NotInRound;
    SleepingExclusively(s.sh, s.cores);
    IndexIsThere(s.sh.sleeping, p);
    assert s.ticker.sleepers[s.ticker.k] == s.sh.sleeping[s.ticker.k];
  }

  /** In a tick turn but the rebuild, either the sleeper is ticked or its tick comes nearer. */
  lemma TickStepCounts(sh: Shared, t: Ticker, p: nat, index: nat)
    requires p < |sh.procs| && index < |sh.sleeping| && !t.Rebuilding? && RoundOk(sh.procs, t)
    requires t.Ticking? && t.k < |t.sleepers| ==>
               && (t.sleepers[t.k] == p <==> t.k == index)
               && (t.k == index ==> TickSleep(sh.procs[p]).sleepRemaining == sh.procs[p].sleepRemaining - 1)
    ensures var (sh', t') := TickStep(sh, t);
            && |sh'.procs| == |sh.procs| && sh'.sleeping == sh.sleeping
            && (sh'.procs[p].sleepRemaining == sh.procs[p].sleepRemaining - 1
                || (sh'.procs[p].sleepRemaining == sh.procs[p].sleepRemaining && TicksToGo(t', index) < TicksToGo(t, index)))
  {
    hide TickSleep, WakeOrder, Snapshot, Due, SortedForWaking;
  }

  lemma TickTurnCounts(s: System, p: nat)
    requires Inv(s) && p in s.sh.sleeping && !s.ticker.Rebuilding?
    ensures p < |s.sh.procs|
    ensures var (s', index) := (Apply(s, TickTurn), IndexOf(s.sh.sleeping, p));
            && |s'.sh.procs| == |s.sh.procs| && s'.sh.sleeping == s.sh.sleeping
            && (s'.sh.procs[p].sleepRemaining == s.sh.procs[p].sleepRemaining - 1
                || (s'.sh.procs[p].sleepRemaining == s.sh.procs[p].sleepRemaining
                    && TicksToGo(s'.ticker, index) < TicksToGo(s.ticker, index)))
  {
    hide Inv, RoundOk, TickSleep, IndexOf, TickStep, TicksToGo;
    SleeperExists(s, p);
    RoundHolds(s);
    IndexIsThere(s.sh.sleeping, p);
    if s.ticker.Ticking? && s.ticker.k < |s.ticker.sleepers| {
      SnapshotIndex(s, p);
      if s.ticker.sleepers[s.ticker.k] == p {
        TickedSleeps(s);
      }
    }
    TickStepCounts(s.sh, s.ticker, p, IndexOf(s.sh.sleeping, p));
  }

  lemma TickedSleeps(s: System)
    requires Inv(s) && s.ticker.Ticking? && s.ticker.k < |s.ticker.sleepers|
    ensures var p := s.ticker.sleepers[s.ticker.k];
            p < |s.sh.procs| && TickSleep(s.sh.procs[p]).sleepRemaining == s.sh.procs[p].sleepRemaining - 1
  {
    hide SlotsOk, PidsOk, ReadyOk, FinishedOk, CoresOk, Partition, ProcsOk, TickSleep, Good;
    var t := s.ticker;
    assert InRound(s.sh, t.sleepers[t.k], t.before[t.k], t.k < Ticked(t));
    TickSleepStep(t.before[t.k]);
  }

  lemma TickTurnAsleep(s: System, p: nat)
    requires Inv(s) && p in s.sh.sleeping
    ensures var s' := Apply(s, TickTurn);
            p < |s.sh.procs| && p < |s'.sh.procs| && DistanceOf(s', p).LessThan(DistanceOf(s, p))
  {
    hide Inv, Apply, Fuel, DistanceOf, IndexOf, TicksToGo, Rebuild;
    var s' := Apply(s, TickTurn);
    InBed(s, p);
    ApplyKeepsInv(s, TickTurn);
    FuelStep(s, TickTurn, p);
    if s.ticker.Rebuilding? {
      RebuildMoves(s, p);
    } else {
      TickTurnCounts(s, p);
    }
    if p in s'.sh.sleeping {
      InBed(s', p);
    } else {
      InQueue(s', p);
    }
  }

  lemma RebuildMoves(s: System, p: nat)
    requires Inv(s) && p in s.sh.sleeping && s.ticker.Rebuilding?
    ensures var s' := Apply(s, TickTurn);
            && |s'.sh.procs| == |s.sh.procs| && p < |s.sh.procs|
            && s'.sh.procs[p].sleepRemaining == s.sh.procs[p].sleepRemaining
            && if p in s'.sh.sleeping then
                 TicksToGo(s'.ticker, IndexOf(s'.sh.sleeping, p)) < TicksToGo(s.ticker, IndexOf(s.sh.sleeping, p))
               else p in s'.sh.ready
  {
    hide Inv, Those, Others, IndexOf, Apply;
    SleeperExists(s, p);
    RebuildChangesLists(s);
    SleeperDuringRebuild(s, p);
    SplitKeepsAll(s.sh.sleeping, s.ticker.woken);
    if p in Others(s.sh.sleeping, s.ticker.woken) {
      MovesUp(s.sh.sleeping, s.ticker.woken, p);
    }
  }

  // ---------------------------------------------------------------------------------------------
  // Turns of the creators

  lemma MakerTurnKeeps(s: System, j: nat, d: Draft, p: nat)
    requires Inv(s) && Admissible(d) && p < |s.sh.procs|
    ensures var s' := Apply(s, MakerTurn(j, d));
            && p < |s'.sh.procs| && s'.sh.procs[p] == s.sh.procs[p]
            && s'.cores == s.cores && s'.ticker == s.ticker && s'.sh.sleeping == s.sh.sleeping
            && s.sh.ready <= s'.sh.ready
  {
    hide Inv, Admissible, Build;
  }

  lemma MakerTurnDistance(s: System, j: nat, d: Draft, p: nat)
    requires Inv(s) && Admissible(d) && p < |s.sh.procs| && p !in s.sh.finished
    ensures var s' := Apply(s, MakerTurn(j, d));
            && p < |s'.sh.procs| && Helper(s', p) == Helper(s, p)
            && (DistanceOf(s', p) == DistanceOf(s, p) || DistanceOf(s', p).LessThan(DistanceOf(s, p)))
  {
    hide Inv, Apply, Fuel, DistanceOf, IndexOf, TicksToGo, WaitBudget, Helper, Held, Admissible;
    var l := MakerTurn(j, d);
    var s' := Apply(s, l);
    MakerTurnKeeps(s, j, d, p);
    ApplyKeepsInv(s, l);
    Whereabouts(s, p);
    if p in s.sh.ready {
      InQueue(s, p);
      InQueue(s', p);
      WaitBudgetStep(s, l, p);
    } else if p in s.sh.sleeping {
      InBed(s, p);
      InBed(s', p);
    } else {
      var i :| 0 <= i < |s.cores| && Held(s.cores[i]) == Some(p);
      InHands(s, p, i);
      InHands(s', p, i);
    }
  }

  lemma Whereabouts(s: System, p: nat)
    requires Inv(s) && p < |s.sh.procs| && p !in s.sh.finished
    ensures p in s.sh.ready || p in s.sh.sleeping || exists i :: 0 <= i < |s.cores| && Held(s.cores[i]) == Some(p)
  {
    hide SlotsOk, PidsOk, ReadyOk, FinishedOk, CoresOk, SleepersOk, ProcsOk, Partition, Held;
    SomewherePlaced(s.sh, s.cores, p);
  }

  // ---------------------------------------------------------------------------------------------
  // Any turn

  /** A turn of its helper brings a process nearer to its end. Any other turn does so too, or leaves
      the distance and the helper as they were. */
  ghost predicate Helps(s: System, l: Label, p: nat) {
    var s' := Apply(s, l);
    && p < |s.sh.procs| && p < |s'.sh.procs|
    && (DistanceOf(s', p).LessThan(DistanceOf(s, p))
        || (l != Helper(s, p) && DistanceOf(s', p) == DistanceOf(s, p) && Helper(s', p) == Helper(s, p)))
  }

  lemma CoreTurnHelps(s: System, i: nat, p: nat)
    requires Inv(s) && p < |s.sh.procs| && p !in s.sh.finished && i < |s.cores|
    ensures Helps(s, CoreTurn(i), p)
  {
    hide Inv, Apply, DistanceOf, Held;
    Whereabouts(s, p);
    if p in s.sh.ready {
      CoreTurnQueued(s, p, i);
    } else if p in s.sh.sleeping {
      InBed(s, p);
      CoreTurnAsleep(s, p, i);
    } else {
      var j :| 0 <= j < |s.cores| && Held(s.cores[j]) == Some(p);
      InHands(s, p, j);
      if i == j {
        OwnTurn(s, p, i);
      } else {
        OtherTurnHeld(s, p, j, i);
      }
    }
  }

  lemma TickTurnHelps(s: System, p: nat)
    requires Inv(s) && p < |s.sh.procs| && p !in s.sh.finished
    ensures Helps(s, TickTurn, p)
  {
    hide Inv, Apply, DistanceOf, Held;
    Whereabouts(s, p);
    if p in s.sh.ready {
      InQueue(s, p);
      TickTurnQueued(s, p);
    } else if p in s.sh.sleeping {
      TickTurnAsleep(s, p);
    } else {
      var j :| 0 <= j < |s.cores| && Held(s.cores[j]) == Some(p);
      InHands(s, p, j);
      TickTurnHeld(s, p, j);
    }
  }

  lemma HelpfulStep(s: System, l: Label, p: nat)
    requires Inv(s) && s.cfg.numCpu > 0 && AdmissibleLabel(l) && p < |s.sh.procs| && p !in s.sh.finished
    ensures Helps(s, l, p)
    ensures Helper(s, p) == TickTurn || exists i :: 0 <= i < s.cfg.numCpu && Helper(s, p) == CoreTurn(i)
  {
    assert |s.cores| == s.cfg.numCpu;
    hide Inv, DistanceOf, Admissible, HolderOf;
    assert Helper(s, p) == TickTurn || exists i :: 0 <= i < s.cfg.numCpu && Helper(s, p) == CoreTurn(i);
    match l
    case CoreTurn(i) =>
      if i < |s.cores| {
        CoreTurnHelps(s, i, p);
      }
    case TickTurn => TickTurnHelps(s, p);
    case MakerTurn(j, d) =>
      hide Apply;
      MakerTurnDistance(s, j, d, p);
  }
}
