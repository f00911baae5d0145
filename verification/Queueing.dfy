/** How long a process waits in the ready queue, although woken sleepers overtake it, and in which
    order an FCFS core serves. */
module Queueing {
  import opened Options
  import opened ProcessSpec
  import opened SchedulerSpec
  import opened Threads
  import opened Places
  import opened Invariant
  import opened TickRound
  import opened Reachable
  import opened Work

  // ---------------------------------------------------------------------------------------------
  // Who can run before p does

  /** The part of the queue in front of `p`. */
  function Before(ready: seq<nat>, p: nat): seq<nat> {
    if ready == [] || ready[0] == p then [] else [ready[0]] + Before(ready[1..], p)
  }

  predicate Ahead(s: System, p: nat, r: nat) {
    r in Before(s.sh.ready, p) || r in s.sh.sleeping || r in HeldBag(s.cores)
  }

  lemma {:induction false} BeforeAppend(ready: seq<nat>, more: seq<nat>, p: nat)
    requires p in ready
    ensures Before(ready + more, p) == Before(ready, p)
  {
    if ready[0] != p {
      assert (ready + more)[1..] == ready[1..] + more;
      BeforeAppend(ready[1..], more, p);
    }
  }

  lemma {:induction false} BeforePrepend(front: seq<nat>, ready: seq<nat>, p: nat)
    requires p !in front
    ensures Before(front + ready, p) == front + Before(ready, p)
  {
    if front == [] {
      assert front + ready == ready;
    } else {
      assert (front + ready)[1..] == front[1..] + ready;
      BeforePrepend(front[1..], ready, p);
    }
  }

  lemma HeldAfter(cores: seq<Core>, i: nat, c: Core, r: nat)
    requires i < |cores| && r in HeldBag(cores[i := c])
    ensures r in HeldBag(cores) || Held(c) == Some(r)
  {
    HeldBagUpdate(cores, i, c);
    assert r in HeldBag(cores[i := c]) + Bag(Held(cores[i]));
  }

  lemma HolderHolds(cores: seq<Core>, i: nat)
    requires i < |cores| && Held(cores[i]).Some?
    ensures Held(cores[i]).value in HeldBag(cores)
  {
    HeldCount(cores, i, Held(cores[i]).value);
  }

  /** A core puts nobody new in front of a process that stays in the queue. */
  lemma AheadCoreTurn(s: System, i: nat, p: nat, r: nat)
    requires Inv(s) && i < |s.cores|
    requires p in s.sh.ready && p in Apply(s, CoreTurn(i)).sh.ready && Ahead(Apply(s, CoreTurn(i)), p, r)
    ensures Ahead(s, p, r)
  {
    hide SlotsOk, PidsOk, FinishedOk, ProcsOk, SleepersOk, ReadyOk, HeldBag;
    var c := s.cores[i];
    var (sh', c') := CoreStep(s.cfg, i, s.sh, c);
    assert CoreOk(s.cfg, s.sh.procs, c);
    ReadyExclusively(s.sh, s.cores);
    hide Partition, CoresOk;
    if r in HeldBag(s.cores[i := c']) {
      HeldAfter(s.cores, i, c', r);
    }
    if Held(c).Some? {
      HolderHolds(s.cores, i);
    }
    hide ExecuteNext, SlotOf, AfterCall, Before;
    match c.pc
    case Reacquire => AheadAfterPop(s.sh.ready, p);
    case Top => if c.current.None? { AheadAfterPop(s.sh.ready, p); }
    case Preempting => BeforeAppend(s.sh.ready, [c.current.value], p);
    case _ =>
  }

  lemma AheadAfterPop(ready: seq<nat>, p: nat)
    requires ready != [] && Distinct(ready)
    ensures p in ready[1..] ==> ready[0] != p && Before(ready, p) == [ready[0]] + Before(ready[1..], p)
  {
    if p in ready[1..] {
      var k :| 0 <= k < |ready[1..]| && ready[1..][k] == p;
      assert ready[k + 1] == p;
    }
  }

  lemma AheadTickTurn(s: System, p: nat, r: nat)
    requires Inv(s) && p in s.sh.ready && Ahead(Apply(s, TickTurn), p, r)
    ensures Ahead(s, p, r)
  {
    hide Inv, Before, Those, Others, WakeOrder, Snapshot, TickSleep, HeldBag;
    if s.ticker.Rebuilding? {
      var woken := s.ticker.woken;
      WokenAreTracked(s);
      SplitKeepsAll(s.sh.sleeping, woken);
      assert p !in woken && forall q :: q in woken ==> q in s.sh.sleeping by { WokenNotQueued(s); }
      BeforePrepend(woken, s.sh.ready, p);
    }
  }

  lemma WokenNotQueued(s: System)
    requires Inv(s) && s.ticker.Rebuilding?
    ensures forall q :: q in s.ticker.woken ==> q in s.sh.sleeping && q !in s.sh.ready
  {
    hide SlotsOk, PidsOk, FinishedOk, ProcsOk, ReadyOk, CoresOk, InRound, NotInRound, SortedForWaking;
    WokenAreSleepers(s.ticker.sleepers, s.ticker.before, s.ticker.woken);
    SleepingExclusively(s.sh, s.cores);
  }

  /** While `p` is queued, the set of those who may run before it never gains a member. */
  lemma AheadNeverGrows(s: System, l: Label, p: nat, r: nat)
    requires Inv(s) && p in s.sh.ready && p in Apply(s, l).sh.ready && Ahead(Apply(s, l), p, r)
    ensures Ahead(s, p, r)
  {
    hide Inv, Before;
    match l
    case CoreTurn(i) => if i < |s.cores| { AheadCoreTurn(s, i, p, r); }
    case TickTurn => AheadTickTurn(s, p, r);
    case MakerTurn(j, d) =>
      if j < |s.makers| && s.makers[j].HasPid? {
        BeforeAppend(s.sh.ready, [|s.sh.procs|], p);
      }
  }

  lemma AheadExists(s: System, p: nat, r: nat)
    requires Inv(s) && p in s.sh.ready && Ahead(s, p, r)
    ensures r < |s.sh.procs|
  {
    hide SlotsOk, PidsOk, FinishedOk, ProcsOk, ReadyOk, CoresOk, SleepersOk;
    PlaceCount(s.sh, s.cores, r);
    NotInList(s.sh.ready, r);
    NotInList(s.sh.sleeping, r);
    BeforeIsQueued(s.sh.ready, p, r);
  }

  lemma {:induction false} BeforeIsQueued(ready: seq<nat>, p: nat, r: nat)
    ensures r in Before(ready, p) ==> r in ready
  {
    if ready != [] && ready[0] != p {
      BeforeIsQueued(ready[1..], p, r);
    }
  }

  // ---------------------------------------------------------------------------------------------
  // The fuel in front of p

  function AheadFuel(s: System, p: nat): seq<int> {
    seq(|s.sh.procs|, r requires 0 <= r < |s.sh.procs| => if Ahead(s, p, r) then Fuel(s.sh.procs[r]) else 0)
  }

  lemma AheadFuelAt(s: System, l: Label, p: nat, r: nat)
    requires Inv(s) && AdmissibleLabel(l) && p in s.sh.ready && p in Apply(s, l).sh.ready
    requires r < |Apply(s, l).sh.procs|
    ensures r < |s.sh.procs| ==> AheadFuel(Apply(s, l), p)[r] <= AheadFuel(s, p)[r] - CallOf(s, l, r)
    ensures r >= |s.sh.procs| ==> AheadFuel(Apply(s, l), p)[r] == 0
  {
    hide Inv, Apply, Fuel, Ahead;
    if Ahead(Apply(s, l), p, r) {
      AheadNeverGrows(s, l, p, r);
      AheadExists(s, p, r);
    }
    if r < |s.sh.procs| {
      FuelStep(s, l, r);
      ApplyKeepsInv(s, l);
      GoodFuel(Apply(s, l), r);
      GoodFuel(s, r);
      if Called(s, l) == Some(r) {
        CalledIsAhead(s, l, p);
      }
    }
  }

  lemma GoodFuel(s: System, r: nat)
    requires Inv(s) && r < |s.sh.procs|
    ensures Fuel(s.sh.procs[r]) >= 0
  {
    FuelZeroIffFinished(s.sh.procs[r]);
  }

  lemma CalledIsAhead(s: System, l: Label, p: nat)
    requires Called(s, l).Some?
    ensures Ahead(s, p, Called(s, l).value)
  {
    HolderHolds(s.cores, l.i);
  }

  lemma AheadFuelStep(s: System, l: Label, p: nat)
    requires Inv(s) && AdmissibleLabel(l) && p in s.sh.ready && p in Apply(s, l).sh.ready
    ensures Sum(AheadFuel(Apply(s, l), p)) + CallCount(s, l) <= Sum(AheadFuel(s, p))
  {
    hide Inv, Apply, AheadFuel;
    var before, after := AheadFuel(s, p), AheadFuel(Apply(s, l), p);
    assert |before| == |s.sh.procs| && |after| == |Apply(s, l).sh.procs| by { AheadFuelLength(s, p); AheadFuelLength(Apply(s, l), p); }
    var n := |s.sh.procs|;
    ProcsGrow(s, l);
    forall r | 0 <= r < |after| ensures (r < n ==> after[r] <= before[r] - CallOf(s, l, r)) && (r >= n ==> after[r] == 0) {
      AheadFuelAt(s, l, p, r);
    }
    SumOfPadded(after, n);
    match Called(s, l)
    case None => SumAtMost(after[..n], before);
    case Some(q) =>
      assert q < n by { CalledExists(s, l); }
      SumUpdate(before, q, before[q] - 1);
      SumAtMost(after[..n], before[q := before[q] - 1]);
  }

  lemma AheadFuelLength(s: System, p: nat)
    ensures |AheadFuel(s, p)| == |s.sh.procs|
  {
  }

  lemma ProcsGrow(s: System, l: Label)
    requires Inv(s) && AdmissibleLabel(l)
    ensures |s.sh.procs| <= |Apply(s, l).sh.procs|
  {
    hide Inv, Apply;
    if s.sh.procs != [] {
      FuelStep(s, l, 0);
    }
  }

  lemma CalledExists(s: System, l: Label)
    requires Inv(s) && Called(s, l).Some?
    ensures Called(s, l).value < |s.sh.procs|
  {
    hide SlotsOk, PidsOk, FinishedOk, ProcsOk, ReadyOk, Partition, SleepersOk;
    assert CoreOk(s.cfg, s.sh.procs, s.cores[l.i]);
  }

  lemma {:induction false} SumOfPadded(weights: seq<int>, n: nat)
    requires n <= |weights| && forall k :: n <= k < |weights| ==> weights[k] == 0
    ensures Sum(weights) == Sum(weights[..n])
  {
    if |weights| == n {
      assert weights[..n] == weights;
    } else {
      SumOfPadded(weights[..|weights| - 1], n);
      assert weights[..|weights| - 1][..n] == weights[..n];
    }
  }

  // ---------------------------------------------------------------------------------------------
  // The theorem

  /** `p` stays in the queue all along a schedule. */
  ghost predicate Queued(s: System, schedule: seq<Label>, p: nat) {
    && p in Execute(s, schedule).sh.ready
    && (schedule != [] ==> Queued(s, schedule[..|schedule| - 1], p))
  }

  /** While `p` waits, all cores together make no more calls than those ahead of it still needed when
      the wait began: sleepers that wake overtake it but add nothing, newcomers queue behind it. This
      holds for both policies and any stream of arrivals. */
  lemma {:induction false} BoundedWaiting(s: System, schedule: seq<Label>, p: nat)
    requires Inv(s) && AdmissibleSchedule(schedule) && Queued(s, schedule, p)
    ensures CallsMade(s, schedule) + Sum(AheadFuel(Execute(s, schedule), p)) <= Sum(AheadFuel(s, p))
    ensures CallsMade(s, schedule) <= Sum(AheadFuel(s, p))
    ensures forall r :: Ahead(Execute(s, schedule), p, r) ==> Ahead(s, p, r)
  {
    hide Inv, Apply, AheadFuel, Ahead;
    if schedule == [] {
    } else {
      var n := |schedule| - 1;
      var shorter := schedule[..n];
      BoundedWaiting(s, shorter, p);
      ExecuteKeepsInv(s, shorter);
      AheadFuelStep(Execute(s, shorter), schedule[n], p);
      forall r | Ahead(Execute(s, schedule), p, r) ensures Ahead(s, p, r) {
        AheadNeverGrows(Execute(s, shorter), schedule[n], p, r);
      }
    }
    ExecuteKeepsInv(s, schedule);
    AheadFuelIsNatural(Execute(s, schedule), p);
  }

  lemma AheadFuelIsNatural(s: System, p: nat)
    requires Inv(s)
    ensures Sum(AheadFuel(s, p)) >= 0
  {
    hide Inv, Ahead, Fuel;
    var weights := AheadFuel(s, p);
    forall r | 0 <= r < |weights| ensures weights[r] >= 0 {
      GoodFuel(s, r);
    }
    SumZero(weights);
  }

  // ---------------------------------------------------------------------------------------------
  // Turns

  /** How many turns a core can take from one call of `executeNext` to the next, the call included,
      when it never finds the queue empty. */
  function TurnsPerCall(delay: nat): nat {
    if delay > 3 then delay + 4 else 7
  }

  /** How many turns a core can still take before its next call. */
  function Slack(c: Core): nat {
    match c.pc
    case Top => if c.current.None? then 2 else c.delay
    case Gate => c.delay
    case Claim(_) => 1
    case Reclaim(_) => 1
    case Reacquire => 2
    case Finishing => 3
    case Parking => 3
    case Preempting => 3
    case CheckQuantum => TurnsPerCall(c.delay) - 3
    case CheckWaiting => TurnsPerCall(c.delay) - 2
    case CheckFinished => TurnsPerCall(c.delay) - 1
  }

  function Slacks(cores: seq<Core>): seq<int> {
    seq(|cores|, i requires 0 <= i < |cores| => Slack(cores[i]))
  }

  /** A turn uses up slack, and a call brings new slack. */
  lemma SlackStep(cfg: Config, i: nat, sh: Shared, c: Core)
    requires CoreOk(cfg, sh.procs, c) && sh.ready != []
    ensures Slack(CoreStep(cfg, i, sh, c).1) + 1 <= Slack(c) + if Calls(c) then TurnsPerCall(cfg.delaysPerExec) else 0
  {
    hide SlotOf, ExecuteNext, CallTick;
  }

  function TurnCount(s: System, l: Label): nat {
    if l.CoreTurn? && l.i < |s.cores| then 1 else 0
  }

  /** How many turns the cores take in a schedule. */
  function TurnsTaken(s: System, schedule: seq<Label>): nat {
    if schedule == [] then 0
    else
      TurnsTaken(s, schedule[..|schedule| - 1]) +
      TurnCount(Execute(s, schedule[..|schedule| - 1]), schedule[|schedule| - 1])
  }

  /** How many turns all cores together can take before `p` is served. */
  function WaitBudget(s: System, p: nat): int {
    TurnsPerCall(s.cfg.delaysPerExec) * Sum(AheadFuel(s, p)) + Sum(Slacks(s.cores))
  }

  lemma SlacksStep(s: System, l: Label)
    requires Inv(s) && s.sh.ready != []
    ensures Sum(Slacks(Apply(s, l).cores)) + TurnCount(s, l) <=
            Sum(Slacks(s.cores)) + TurnsPerCall(s.cfg.delaysPerExec) * CallCount(s, l)
  {
    hide Inv, CoreOk, CoreStep, TickStep, MakerStep, Slack, TurnsPerCall, Calls;
    if l.CoreTurn? && l.i < |s.cores| {
      var c := s.cores[l.i];
      var c' := CoreStep(s.cfg, l.i, s.sh, c).1;
      CoreIsOk(s, l.i);
      SlackStep(s.cfg, l.i, s.sh, c);
      SumUpdate(Slacks(s.cores), l.i, Slack(c'));
      assert Slacks(s.cores[l.i := c']) == Slacks(s.cores)[l.i := Slack(c')];
      CallersHold(c);
    }
  }

  lemma CallersHold(c: Core)
    ensures Calls(c) ==> c.current.Some?
  {
  }

  /** The budget pays for every turn of a core, and nothing else any thread does raises it. */
  lemma WaitBudgetStep(s: System, l: Label, p: nat)
    requires Inv(s) && AdmissibleLabel(l) && p in s.sh.ready && p in Apply(s, l).sh.ready
    ensures WaitBudget(Apply(s, l), p) + TurnCount(s, l) <= WaitBudget(s, p)
  {
    hide Inv, Apply, AheadFuel, TurnsPerCall, Slacks;
    ApplyKeepsInv(s, l);
    AheadFuelStep(s, l, p);
    SlacksStep(s, l);
    Spend(TurnsPerCall(s.cfg.delaysPerExec), Sum(AheadFuel(s, p)), Sum(AheadFuel(Apply(s, l), p)), CallCount(s, l));
  }

  lemma Spend(each: nat, before: int, after: int, calls: nat)
    requires after + calls <= before
    ensures each * after + each * calls <= each * before
  {
    assert each * after + each * calls == each * (after + calls);
  }

  /** A waiting process is served after a bounded number of turns: while `p` stays in the queue, all
      cores together take no more turns than the calls of those ahead of it pay for, beyond what
      the cores had left before their next calls. This holds for both policies and any arrivals. */
  lemma {:induction false} BoundedTurns(s: System, schedule: seq<Label>, p: nat)
    requires Inv(s) && AdmissibleSchedule(schedule) && Queued(s, schedule, p)
    ensures TurnsTaken(s, schedule) + WaitBudget(Execute(s, schedule), p) <= WaitBudget(s, p)
    ensures WaitBudget(Execute(s, schedule), p) >= 0
    ensures TurnsTaken(s, schedule) <=
            TurnsPerCall(s.cfg.delaysPerExec) * Sum(AheadFuel(s, p)) + Sum(Slacks(s.cores))
  {
    hide Inv, Apply, AheadFuel, WaitBudget;
    if schedule == [] {
    } else {
      var n := |schedule| - 1;
      var shorter := schedule[..n];
      BoundedTurns(s, shorter, p);
      ExecuteKeepsInv(s, shorter);
      WaitBudgetStep(Execute(s, shorter), schedule[n], p);
    }
    ExecuteKeepsInv(s, schedule);
    WaitBudgetIsNatural(Execute(s, schedule), p);
    assert WaitBudget(s, p) == TurnsPerCall(s.cfg.delaysPerExec) * Sum(AheadFuel(s, p)) + Sum(Slacks(s.cores)) by {
      BudgetParts(s, p);
    }
  }

  lemma BudgetParts(s: System, p: nat)
    ensures WaitBudget(s, p) == TurnsPerCall(s.cfg.delaysPerExec) * Sum(AheadFuel(s, p)) + Sum(Slacks(s.cores))
  {
  }

  lemma WaitBudgetIsNatural(s: System, p: nat)
    requires Inv(s)
    ensures WaitBudget(s, p) >= 0
  {
    hide Inv, AheadFuel, TurnsPerCall;
    AheadFuelIsNatural(s, p);
    SumZero(Slacks(s.cores));
    Spend(TurnsPerCall(s.cfg.delaysPerExec), Sum(AheadFuel(s, p)), 0, Sum(AheadFuel(s, p)));
  }

  lemma SlackOfCore(cfg: Config, procs: seq<Proc>, c: Core)
    requires CoreOk(cfg, procs, c)
    ensures Slack(c) < TurnsPerCall(cfg.delaysPerExec)
  {
    hide CallTick;
  }

  /** The slack of the cores is bounded by the machine alone. */
  lemma SlackIsSmall(s: System)
    requires IsReachable(s)
    ensures Sum(Slacks(s.cores)) <= s.cfg.numCpu * (TurnsPerCall(s.cfg.delaysPerExec) - 1)
  {
    ReachableInv(s);
    assert |s.cores| == s.cfg.numCpu;
    hide IsReachable, Inv, Slack, TurnsPerCall, CoreOk;
    var most := TurnsPerCall(s.cfg.delaysPerExec) - 1;
    forall i | 0 <= i < |s.cores| ensures Slack(s.cores[i]) <= most {
      CoreIsOk(s, i);
      SlackOfCore(s.cfg, s.sh.procs, s.cores[i]);
    }
    SumOfBounded(Slacks(s.cores), most);
  }

  lemma {:induction false} SumOfBounded(weights: seq<int>, most: int)
    requires forall k :: 0 <= k < |weights| ==> weights[k] <= most
    ensures Sum(weights) <= |weights| * most
  {
    if weights != [] {
      var n := |weights| - 1;
      SumOfBounded(weights[..n], most);
      assert (n + 1) * most == n * most + most;
    }
  }
}
