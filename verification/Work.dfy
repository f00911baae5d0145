/** How much work there is: every call of `executeNext` uses up one unit of fuel and nothing else
    does, which bounds whole runs and the time a process waits in the ready queue. */
module Work {
  import opened Instructions
  import opened Options
  import opened ProcessSpec
  import opened SchedulerSpec
  import opened Threads
  import opened Places
  import opened Invariant
  import opened Reachable

  // ---------------------------------------------------------------------------------------------
  // Sums

  function Sum(weights: seq<int>): int {
    if weights == [] then 0 else Sum(weights[..|weights| - 1]) + weights[|weights| - 1]
  }

  lemma {:induction false} SumAtMost(small: seq<int>, big: seq<int>)
    requires |small| == |big| && forall k :: 0 <= k < |big| ==> small[k] <= big[k]
    ensures Sum(small) <= Sum(big)
  {
    if big != [] {
      SumAtMost(small[..|small| - 1], big[..|big| - 1]);
    }
  }

  lemma {:induction false} SumUpdate(weights: seq<int>, i: nat, w: int)
    requires i < |weights|
    ensures Sum(weights[i := w]) == Sum(weights) - weights[i] + w
  {
    var n := |weights| - 1;
    if i == n {
      assert weights[i := w][..n] == weights[..n];
    } else {
      SumUpdate(weights[..n], i, w);
      assert weights[i := w][..n] == weights[..n][i := w];
    }
  }

  lemma SumSnoc(weights: seq<int>, w: int)
    ensures Sum(weights + [w]) == Sum(weights) + w
  {
    assert (weights + [w])[..|weights|] == weights;
  }

  lemma {:induction false} SumZero(weights: seq<int>)
    requires forall k :: 0 <= k < |weights| ==> weights[k] >= 0
    ensures Sum(weights) >= 0
    ensures Sum(weights) == 0 <==> forall k :: 0 <= k < |weights| ==> weights[k] == 0
  {
    if weights != [] {
      var n := |weights| - 1;
      SumZero(weights[..n]);
      if Sum(weights) == 0 {
        forall k | 0 <= k < |weights| ensures weights[k] == 0 {
          assert k < n ==> weights[..n][k] == weights[k];
        }
      }
    }
  }

  // ---------------------------------------------------------------------------------------------
  // Calls and fuel

  /** The process whose `executeNext` a step calls, if it calls any. */
  function Called(s: System, l: Label): Option<nat> {
    if l.CoreTurn? && l.i < |s.cores| && Calls(s.cores[l.i]) then s.cores[l.i].current else None
  }

  function CallOf(s: System, l: Label, p: nat): nat {
    if Called(s, l) == Some(p) then 1 else 0
  }

  function CallCount(s: System, l: Label): nat {
    if Called(s, l).Some? then 1 else 0
  }

  function FuelOf(procs: seq<Proc>): seq<int> {
    seq(|procs|, p requires 0 <= p < |procs| => Fuel(procs[p]))
  }

  function CostOf(procs: seq<Proc>): seq<int> {
    seq(|procs|, p requires 0 <= p < |procs| => Cost(procs[p].code))
  }

  /** What a step does to the processes: at most one of them is called, ticked or newly admitted. */
  ghost predicate CallStep(procs: seq<Proc>, next: seq<Proc>, p: nat) {
    p < |procs| && Good(procs[p]) && Runnable(procs[p]) && next == procs[p := ExecuteNext(procs[p])]
  }

  ghost predicate SleepStep(procs: seq<Proc>, next: seq<Proc>, p: nat) {
    p < |procs| && Good(procs[p]) && procs[p].state == WAITING && next == procs[p := TickSleep(procs[p])]
  }

  ghost predicate ArrivalStep(procs: seq<Proc>, next: seq<Proc>) {
    |next| == |procs| + 1 && next[..|procs|] == procs && Fuel(next[|procs|]) == Cost(next[|procs|].code)
  }

  lemma CoreTurnOnProcs(s: System, i: nat)
    requires Inv(s) && i < |s.cores|
    ensures var next := Apply(s, CoreTurn(i)).sh.procs;
            if Calls(s.cores[i]) then CallStep(s.sh.procs, next, s.cores[i].current.value)
            else next == s.sh.procs
  {
    hide SlotsOk, PidsOk, ReadyOk, FinishedOk, SleepersOk, Partition;
    assert CoreOk(s.cfg, s.sh.procs, s.cores[i]);
    hide SlotOf, ExecuteNext, AfterCall, Good;
  }

  lemma TickTurnOnProcs(s: System) returns (p: nat)
    requires Inv(s)
    ensures var next := Apply(s, TickTurn).sh.procs;
            next == s.sh.procs || (SleepStep(s.sh.procs, next, p) && p in s.sh.sleeping)
  {
    hide SlotsOk, PidsOk, ReadyOk, FinishedOk, CoresOk, Partition, TickSleep, Good;
    var t := s.ticker;
    p := 0;
    if t.Ticking? && t.k < |t.sleepers| {
      p := t.sleepers[t.k];
      assert p == s.sh.sleeping[t.k];
      assert InRound(s.sh, t.sleepers[t.k], t.before[t.k], t.k < Ticked(t));
    }
  }

  /** A step changes the fuel of a process by exactly the calls it makes of it. */
  lemma FuelStep(s: System, l: Label, p: nat)
    requires Inv(s) && AdmissibleLabel(l) && p < |s.sh.procs|
    ensures var next := Apply(s, l).sh.procs;
            && |s.sh.procs| <= |next| && SameIdentity(s.sh.procs[p], next[p])
            && Fuel(next[p]) == Fuel(s.sh.procs[p]) - CallOf(s, l, p)
  {
    hide Inv, Apply, Good, ExecuteNext, TickSleep, Fuel;
    match l
    case CoreTurn(i) =>
      if i < |s.cores| {
        CoreTurnOnProcs(s, i);
        if Calls(s.cores[i]) {
          ExecuteNextStep(s.sh.procs[s.cores[i].current.value]);
        }
      } else {
        IdleTurn(s, l);
      }
    case TickTurn =>
      var q := TickTurnOnProcs(s);
      if SleepStep(s.sh.procs, Apply(s, TickTurn).sh.procs, q) {
        TickSleepStep(s.sh.procs[q]);
      }
    case MakerTurn(j, d) => MakerTurnOnProcs(s, j, d);
  }

  lemma IdleTurn(s: System, l: Label)
    requires l.CoreTurn? && l.i >= |s.cores|
    ensures Apply(s, l) == s
  {
  }

  lemma MakerTurnOnProcs(s: System, j: nat, d: Draft)
    requires Inv(s) && Admissible(d)
    ensures var next := Apply(s, MakerTurn(j, d)).sh.procs;
            if j < |s.makers| && s.makers[j].HasPid? then ArrivalStep(s.sh.procs, next) else next == s.sh.procs
  {
    hide SlotsOk, PidsOk, ReadyOk, FinishedOk, CoresOk, Partition, SleepersOk, ProcsOk;
    if j < |s.makers| && s.makers[j].HasPid? {
      NewProcIsGood(s.makers[j].pid, d.name, d.createdAt, Unroll(d.program));
    }
  }

  lemma NobodyArrives(s: System, l: Label)
    requires Inv(s) && !l.MakerTurn?
    ensures |Apply(s, l).sh.procs| == |s.sh.procs|
  {
    hide Inv, CoreStep, TickStep, Good, ExecuteNext, TickSleep;
    match l
    case CoreTurn(i) => if i < |s.cores| { CoreTurnOnProcs(s, i); }
    case TickTurn => var q := TickTurnOnProcs(s);
  }

  /** The fuel and the cost of everything after a step. */
  lemma TotalFuelStep(s: System, l: Label)
    requires Inv(s) && AdmissibleLabel(l)
    ensures var next := Apply(s, l).sh.procs;
            Sum(FuelOf(next)) - Sum(CostOf(next)) == Sum(FuelOf(s.sh.procs)) - Sum(CostOf(s.sh.procs)) - CallCount(s, l)
    ensures !(l.MakerTurn? && l.j < |s.makers| && s.makers[l.j].HasPid?) ==>
              Sum(CostOf(Apply(s, l).sh.procs)) == Sum(CostOf(s.sh.procs))
  {
    hide Inv, Apply, Good, ExecuteNext, TickSleep, Fuel, Cost, Runnable;
    match l
    case CoreTurn(i) =>
      if i < |s.cores| {
        CoreTurnOnProcs(s, i);
        if Calls(s.cores[i]) {
          ExecuteNextStep(s.sh.procs[s.cores[i].current.value]);
          OneFuel(s.sh.procs, s.cores[i].current.value, ExecuteNext(s.sh.procs[s.cores[i].current.value]));
        }
      } else {
        IdleTurn(s, l);
      }
    case TickTurn =>
      var q := TickTurnOnProcs(s);
      if SleepStep(s.sh.procs, Apply(s, TickTurn).sh.procs, q) {
        TickSleepStep(s.sh.procs[q]);
        OneFuel(s.sh.procs, q, TickSleep(s.sh.procs[q]));
      }
    case MakerTurn(j, d) =>
      MakerTurnOnProcs(s, j, d);
      if j < |s.makers| && s.makers[j].HasPid? {
        NewFuel(s.sh.procs, Apply(s, l).sh.procs);
      }
  }

  lemma OneFuel(procs: seq<Proc>, p: nat, q: Proc)
    requires p < |procs| && q.code == procs[p].code
    ensures Sum(FuelOf(procs[p := q])) == Sum(FuelOf(procs)) - Fuel(procs[p]) + Fuel(q)
    ensures Sum(CostOf(procs[p := q])) == Sum(CostOf(procs))
  {
    assert FuelOf(procs[p := q]) == FuelOf(procs)[p := Fuel(q)];
    SumUpdate(FuelOf(procs), p, Fuel(q));
    assert CostOf(procs[p := q]) == CostOf(procs);
  }

  lemma NewFuel(procs: seq<Proc>, next: seq<Proc>)
    requires ArrivalStep(procs, next)
    ensures Sum(FuelOf(next)) - Sum(CostOf(next)) == Sum(FuelOf(procs)) - Sum(CostOf(procs))
  {
    var n := |procs|;
    assert forall k :: 0 <= k < n ==> next[k] == procs[k] by {
      assert forall k :: 0 <= k < n ==> next[..n][k] == procs[k];
    }
    assert FuelOf(next) == FuelOf(procs) + [Fuel(next[n])];
    assert CostOf(next) == CostOf(procs) + [Cost(next[n].code)];
    SumSnoc(FuelOf(procs), Fuel(next[n]));
    SumSnoc(CostOf(procs), Cost(next[n].code));
  }

  // ---------------------------------------------------------------------------------------------
  // Whole runs

  /** How many calls a schedule makes, and how many of one process. */
  function CallsMade(s: System, schedule: seq<Label>): nat {
    if schedule == [] then 0
    else
      CallsMade(s, schedule[..|schedule| - 1]) +
      CallCount(Execute(s, schedule[..|schedule| - 1]), schedule[|schedule| - 1])
  }

  function CallsTo(s: System, schedule: seq<Label>, p: nat): nat {
    if schedule == [] then 0
    else
      CallsTo(s, schedule[..|schedule| - 1], p) +
      CallOf(Execute(s, schedule[..|schedule| - 1]), schedule[|schedule| - 1], p)
  }

  lemma {:induction false} RunUsesFuel(s: System, schedule: seq<Label>)
    requires Inv(s) && AdmissibleSchedule(schedule)
    ensures var next := Execute(s, schedule).sh.procs;
            Sum(FuelOf(next)) - Sum(CostOf(next)) ==
            Sum(FuelOf(s.sh.procs)) - Sum(CostOf(s.sh.procs)) - CallsMade(s, schedule)
  {
    hide Inv, Apply;
    if schedule != [] {
      var n := |schedule| - 1;
      RunUsesFuel(s, schedule[..n]);
      ExecuteKeepsInv(s, schedule[..n]);
      TotalFuelStep(Execute(s, schedule[..n]), schedule[n]);
    }
  }

  lemma NoFuelIffAllFinished(s: System)
    requires Inv(s)
    ensures Sum(FuelOf(s.sh.procs)) >= 0
    ensures Sum(FuelOf(s.sh.procs)) == 0 <==> forall p :: 0 <= p < |s.sh.procs| ==> s.sh.procs[p].state == FINISHED
  {
    hide SlotsOk, PidsOk, ReadyOk, FinishedOk, CoresOk, Partition, SleepersOk, Good, Fuel;
    var fuel := FuelOf(s.sh.procs);
    forall p | 0 <= p < |s.sh.procs| ensures fuel[p] >= 0 && (fuel[p] == 0 <==> s.sh.procs[p].state == FINISHED) {
      FuelZeroIffFinished(s.sh.procs[p]);
    }
    SumZero(fuel);
  }

  /** From the start of the system, calls made and fuel left add up to the cost of everything that
      has been admitted. A run makes exactly that many calls when, and only when, all is FINISHED. */
  lemma TotalWork(cfg: Config, makers: nat, schedule: seq<Label>)
    requires AdmissibleSchedule(schedule)
    ensures var s := Execute(Boot(cfg, makers), schedule);
            var calls := CallsMade(Boot(cfg, makers), schedule);
            && calls + Sum(FuelOf(s.sh.procs)) == Sum(CostOf(s.sh.procs))
            && calls <= Sum(CostOf(s.sh.procs))
            && (calls == Sum(CostOf(s.sh.procs)) <==>
                  forall p :: 0 <= p < |s.sh.procs| ==> s.sh.procs[p].state == FINISHED)
  {
    hide Inv, Fuel, Cost;
    BootInv(cfg, makers);
    RunUsesFuel(Boot(cfg, makers), schedule);
    ExecuteKeepsInv(Boot(cfg, makers), schedule);
    NoFuelIffAllFinished(Execute(Boot(cfg, makers), schedule));
    assert FuelOf(Boot(cfg, makers).sh.procs) == [] && CostOf(Boot(cfg, makers).sh.procs) == [];
  }

  lemma {:induction false} RunUsesFuelOf(s: System, schedule: seq<Label>, p: nat)
    requires Inv(s) && AdmissibleSchedule(schedule) && p < |s.sh.procs|
    ensures var next := Execute(s, schedule).sh.procs;
            && p < |next| && SameIdentity(s.sh.procs[p], next[p])
            && Fuel(next[p]) == Fuel(s.sh.procs[p]) - CallsTo(s, schedule, p)
  {
    hide Inv, Apply, Fuel;
    if schedule != [] {
      var n := |schedule| - 1;
      RunUsesFuelOf(s, schedule[..n], p);
      ExecuteKeepsInv(s, schedule[..n]);
      FuelStep(Execute(s, schedule[..n]), schedule[n], p);
    }
  }

  /** A process that has just arrived is FINISHED when, and only when, it has been called once for
      each of its atomics, and once more if the last of them is a SLEEP above 0. */
  lemma FinishedAfterItsCalls(s: System, schedule: seq<Label>, p: nat)
    requires IsReachable(s) && AdmissibleSchedule(schedule) && p < |s.sh.procs|
    requires s.sh.procs[p].state == READY && s.sh.procs[p].line == 0
    ensures var next, code := Execute(s, schedule).sh.procs, s.sh.procs[p].code;
            && p < |next| && code != []
            && var last := code[|code| - 1];
               var calls := |code| + if last.Sleep? && last.ticks > 0 then 1 else 0;
               CallsTo(s, schedule, p) <= calls && (next[p].state == FINISHED <==> CallsTo(s, schedule, p) == calls)
  {
    hide IsReachable, Execute, SleepersOk, PidsOk, Partition, CoresOk, SlotsOk, FinishedOk, ReadyOk, Progress, CallsTo;
    ReachableInv(s);
    RunUsesFuelOf(s, schedule, p);
    ExecuteKeepsInv(s, schedule);
    assert Good(s.sh.procs[p]);
    FuelZeroIffFinished(Execute(s, schedule).sh.procs[p]);
  }
}
