/** The threads as objects, and the machine that runs them under an arbitrary schedule. Every step is
    tied to the same step of the model (module Threads), so what is proved about runs of the model
    holds of runs of these objects. */
module MachineClass {
  import opened Instructions
  import opened Options
  import opened ProcessSpec
  import opened ProcessClass
  import opened SchedulerSpec
  import opened Threads
  import opened LoopBody
  import opened Places
  import opened Invariant
  import opened TickRound
  import opened Reachable
  import opened EngineClass

  // ---------------------------------------------------------------------------------------------
  // A core

  class Cpu {
    const coreId: nat

    var pc: CorePc
    var current: Option<nat>
    var ticksOnCurrent: int
    var delayTicksRemaining: nat
    ghost var slice: nat

    ghost function View(): Core
      reads this
    {
      Core(pc, current, ticksOnCurrent, delayTicksRemaining, slice)
    }

    constructor (coreId: nat)
      ensures this.coreId == coreId && View() == IDLE_CORE
    {
      this.coreId := coreId;
      pc := Top;
      current := None;
      ticksOnCurrent := 0;
      delayTicksRemaining := 0;
      slice := 0;
    }

    /** The part of the loop of `CPU::run` up to the next point at which another thread may run. */
    method Step(e: Engine)
      requires e.Valid()
      requires current.Some? ==> current.value < |e.owned|
      modifies this, e, e.owned
      ensures e.Valid() && e.owned == old(e.owned)
      ensures (e.View(), View()) == CoreStep(e.cfg, coreId, old(e.View()), old(View()))
    {
      match pc
      case Claim(p) => ClaimTurn(e, p, Gate);
      case Reclaim(p) => ClaimTurn(e, p, Top);
      case Reacquire => ReacquireTurn(e);
      case _ =>
        if current.None? {
          AcquireTurn(e);
        } else {
          BusyTurn(e, current.value);
        }
    }

    method ClaimTurn(e: Engine, p: nat, next: CorePc)
      requires e.Valid()
      modifies this, e`runningProcs, e`coresUsed
      ensures e.Valid() && e.View() == MarkRunning(old(e.View()), p, coreId)
      ensures View() == Claimed(old(View()), p, next)
    {
      e.MarkRunning(p, coreId);
      current := Some(p);
      ticksOnCurrent := 0;
      delayTicksRemaining := 0;
      slice := 0;
      pc := next;
    }

    method AcquireTurn(e: Engine)
      requires e.Valid()
      modifies this`pc, e`ready
      ensures e.Valid()
      ensures var (p, popped) := PopReady(old(e.View()));
              e.View() == popped && View() == old(View()).(pc := if p.Some? then Claim(p.value) else Top)
    {
      var q := e.PopReady();
      pc := if q.Some? then Claim(q.value) else Top;
    }

    method ReacquireTurn(e: Engine)
      requires e.Valid()
      modifies this`pc, e`ready
      ensures e.Valid()
      ensures var (p, popped) := PopReady(old(e.View()));
              e.View() == popped && View() == old(View()).(pc := if p.Some? then Reclaim(p.value) else Top)
    {
      var q := e.PopReady();
      pc := if q.Some? then Reclaim(q.value) else Top;
    }

    method BusyTurn(e: Engine, p: nat)
      requires e.Valid() && current == Some(p) && p < |e.owned|
      modifies this, e, e.owned
      ensures e.Valid() && e.owned == old(e.owned)
      ensures (e.View(), View()) == BusyStep(e.cfg, old(e.View()), old(View()), p)
    {
      match pc
      case CheckFinished => CheckTurn(e, p);
      case CheckWaiting => CheckTurn(e, p);
      case CheckQuantum => CheckTurn(e, p);
      case Finishing => FinishTurn(e, p);
      case Parking => ParkTurn(e, p);
      case Preempting => PreemptTurn(e, p);
      case _ => RunTurn(e, p);
    }

    /** Reads the state of the process to find out what to do with it. */
    method CheckTurn(e: Engine, p: nat)
      requires e.Valid() && p < |e.owned|
      requires pc.CheckFinished? || pc.CheckWaiting? || pc.CheckQuantum?
      modifies this`pc
      ensures e.Valid() && (e.View(), View()) == BusyStep(e.cfg, old(e.View()), old(View()), p)
    {
      var state := e.owned[p].state;
      assert e.View().procs[p].state == state;
      match pc
      case CheckFinished =>
        pc := if state == FINISHED then Finishing else CheckWaiting;
      case CheckWaiting =>
        pc := if state == WAITING then Parking else CheckQuantum;
      case CheckQuantum =>
        var keep := ShouldKeepRunning(e.cfg.policy, state, ticksOnCurrent, e.cfg.quantum);
        pc := if keep then Top else Preempting;
    }

    // One iteration of the loop of `CPU::run`, written as the loop body is, with no other thread in
    // between. Its steps, one after the other, are exactly this.

    method Iteration(e: Engine)
      requires e.Valid() && pc == Top
      requires current.Some? ==> current.value < |e.owned|
      requires forall k :: 0 <= k < |e.ready| ==> e.ready[k] < |e.owned|
      modifies this, e, e.owned
      ensures e.Valid() && e.owned == old(e.owned) && pc == Top
      ensures (e.View(), View()) == AloneIteration(e.cfg, coreId, old(e.View()), old(View()))
    {
      hide AloneIteration, DelayOrCall;
      IterationIsBody(e.cfg, coreId, e.View(), View());
      var p := current;
      if p == None {
        p := e.PopReady();
        if p == None { return; }
        ClaimTurn(e, p.value, Gate);
      }
      IterationWith(e, p.value);
    }

    method IterationWith(e: Engine, p: nat)
      requires e.Valid() && current == Some(p) && p < |e.owned|
      modifies this, e, e.owned
      ensures e.Valid() && e.owned == old(e.owned) && pc == Top
      ensures (e.View(), View()) == DelayOrCall(e.cfg, coreId, old(e.View()), old(View()), p)
    {
      hide Decide, Run;
      var delayed := delayTicksRemaining > 0;
      RunTurn(e, p);
      if !delayed {
        IterationEnd(e, p);
      }
    }

    method IterationEnd(e: Engine, p: nat)
      requires e.Valid() && p < |e.owned|
      modifies this, e
      ensures e.Valid() && e.owned == old(e.owned) && pc == Top
      ensures (e.View(), View()) == Decide(e.cfg, coreId, old(e.View()), old(View()), p)
    {
      hide TakeNext, GiveUp;
      var releasedCore := GiveUpTurn(e, p);
      if releasedCore {
        TakeNextTurn(e);
      } else {
        pc := Top;
      }
    }

    method GiveUpTurn(e: Engine, p: nat) returns (releasedCore: bool)
      requires e.Valid() && p < |e.owned|
      modifies this`current
      modifies e`runningProcs, e`coresUsed, e`finishedProcs, e`sleepingProcs, e`parkedAt, e`ready
      ensures e.Valid()
      ensures (e.View(), View(), releasedCore) == GiveUp(e.cfg, old(e.View()), old(View()), p)
    {
      hide Release, Views, MarkFinished, MoveToSleeping, Preempt;
      releasedCore := false;
      var state := e.owned[p].state;
      assert StateOf(e.View().procs, p) == state by { StateOfOwned(e, p); }
      if state == FINISHED {
        e.MarkFinished(p);
        current := None;
        releasedCore := true;
      } else if state == WAITING {
        e.MoveToSleeping(p);
        current := None;
        releasedCore := true;
      } else if !ShouldKeepRunning(e.cfg.policy, state, ticksOnCurrent, e.cfg.quantum) {
        e.Preempt(p);
        current := None;
        releasedCore := true;
      }
    }

    method TakeNextTurn(e: Engine)
      requires e.Valid()
      modifies this, e`ready, e`runningProcs, e`coresUsed
      ensures e.Valid() && pc == Top
      ensures (e.View(), View()) == TakeNext(coreId, old(e.View()), old(View()))
    {
      var q := e.PopReady();
      if q.Some? {
        ClaimTurn(e, q.value, Top);
      } else {
        pc := Top;
      }
    }

    // The three ways to give up the process

    method FinishTurn(e: Engine, p: nat)
      requires e.Valid() && p < |e.owned| && pc.Finishing?
      modifies this`pc, this`current, e`runningProcs, e`coresUsed, e`finishedProcs
      ensures e.Valid() && (e.View(), View()) == BusyStep(e.cfg, old(e.View()), old(View()), p)
    {
      e.MarkFinished(p);
      current := None;
      pc := Reacquire;
    }

    method ParkTurn(e: Engine, p: nat)
      requires e.Valid() && p < |e.owned| && pc.Parking?
      modifies this`pc, this`current, e`runningProcs, e`coresUsed, e`sleepingProcs, e`parkedAt
      ensures e.Valid() && (e.View(), View()) == BusyStep(e.cfg, old(e.View()), old(View()), p)
    {
      e.MoveToSleeping(p);
      current := None;
      pc := Reacquire;
    }

    method PreemptTurn(e: Engine, p: nat)
      requires e.Valid() && p < |e.owned| && pc.Preempting?
      modifies this`pc, this`current, e`runningProcs, e`coresUsed, e`ready
      ensures e.Valid() && (e.View(), View()) == BusyStep(e.cfg, old(e.View()), old(View()), p)
    {
      e.Preempt(p);
      current := None;
      pc := Reacquire;
    }

    /** Sits out one iteration of the delay, or calls the process. */
    method RunTurn(e: Engine, p: nat)
      requires e.Valid() && p < |e.owned|
      modifies this, e.owned
      ensures e.Valid() && (e.View(), View()) == RunOrDelay(e.cfg, old(e.View()), old(View()), p)
    {
      hide Run, Views;
      if delayTicksRemaining > 0 {
        Delayed();
      } else {
        e.CallExecuteNext(p);
        Called(e.cfg.delaysPerExec);
      }
    }

    method Delayed()
      requires delayTicksRemaining > 0
      modifies this
      ensures View() == old(View()).(pc := Top, delay := old(delayTicksRemaining) - 1,
                                     ticksOnCurrent := old(ticksOnCurrent) + 1)
    {
      delayTicksRemaining := delayTicksRemaining - 1;
      ticksOnCurrent := ticksOnCurrent + 1;
      pc := Top;
    }

    /** What the core notes after a call. */
    method Called(delay: nat)
      modifies this
      ensures View() == old(View()).(pc := CheckFinished, delay := delay,
                                     ticksOnCurrent := old(ticksOnCurrent) + 1, slice := old(slice) + 1)
    {
      delayTicksRemaining := delay;
      ticksOnCurrent := ticksOnCurrent + 1;
      slice := slice + 1;
      pc := CheckFinished;
    }
  }

  // ---------------------------------------------------------------------------------------------
  // The tick thread

  datatype TickStage = Rest | Ticks(k: nat) | Collects(k: nat) | Rebuilds

  class TickThread {
    var stage: TickStage
    var sleepers: seq<nat>
    var woken: seq<nat>
    ghost var before: seq<Proc>

    ghost function View(): Ticker
      reads this
    {
      match stage
      case Rest => Resting
      case Ticks(k) => Ticking(sleepers, before, k)
      case Collects(k) => Collecting(sleepers, before, k, woken)
      case Rebuilds => Rebuilding(sleepers, before, woken)
    }

    constructor ()
      ensures View() == Resting
    {
      stage := Rest;
      sleepers := [];
      woken := [];
      before := [];
    }

    method Step(e: Engine)
      requires e.Valid()
      requires !stage.Rest? ==> forall j :: 0 <= j < |sleepers| ==> sleepers[j] < |e.owned|
      requires stage.Collects? ==> forall j :: 0 <= j < |woken| ==> woken[j] < |e.owned|
      modifies this, e, e.owned
      ensures e.Valid() && e.owned == old(e.owned)
      ensures (e.View(), View()) == TickStep(old(e.View()), old(View()))
    {
      hide TickStep, Views;
      match stage
      case Rest => BeginTurn(e);
      case Ticks(k) => SleepTurn(e, k);
      case Collects(k) => CollectTurn(e, k);
      case Rebuilds => RebuildTurn(e);
    }

    method RebuildTurn(e: Engine)
      requires e.Valid() && stage.Rebuilds?
      modifies this`stage, e`ready, e`sleepingProcs
      ensures e.Valid() && (e.View(), View()) == TickStep(old(e.View()), old(View()))
    {
      hide Those, Others, Views;
      e.Rebuild(woken);
      stage := Rest;
    }

    method BeginTurn(e: Engine)
      requires e.Valid() && stage.Rest?
      modifies this, e`tick
      ensures e.Valid() && (e.View(), View()) == TickStep(old(e.View()), old(View()))
    {
      before := Snapshot(e.Procs(), e.sleepingProcs);
      sleepers := e.BeginTick();
      stage := Ticks(0);
    }

    method SleepTurn(e: Engine, k: nat)
      requires e.Valid() && stage == Ticks(k) && forall j :: 0 <= j < |sleepers| ==> sleepers[j] < |e.owned|
      modifies this, e.owned
      ensures e.Valid() && (e.View(), View()) == TickStep(old(e.View()), old(View()))
    {
      hide Views, Tick, Snapshot, WakeOrder;
      if k < |sleepers| {
        e.CallTickSleep(sleepers[k]);
        stage := Ticks(k + 1);
      } else {
        woken := [];
        stage := Collects(0);
      }
    }

    method CollectTurn(e: Engine, k: nat)
      requires e.Valid() && stage == Collects(k) && forall j :: 0 <= j < |sleepers| ==> sleepers[j] < |e.owned|
      requires forall j :: 0 <= j < |woken| ==> woken[j] < |e.owned|
      modifies this`stage, this`woken
      ensures e.Valid() && (e.View(), View()) == TickStep(old(e.View()), old(View()))
    {
      if k < |sleepers| {
        CollectOne(e, k, sleepers[k]);
      } else {
        SortTurn(e);
      }
      hide WakeOrder, Views, StateOf;
    }

    /** Collects one sleeper, if it has woken. */
    method CollectOne(e: Engine, k: nat, p: nat)
      requires e.Valid() && p < |e.owned|
      modifies this`stage, this`woken
      ensures stage == Collects(k + 1)
      ensures woken == old(woken) + if StateOf(e.View().procs, p) != WAITING then [p] else []
    {
      StateOfOwned(e, p);
      hide Views, StateOf;
      if e.owned[p].state != WAITING {
        woken := woken + [p];
      } else {
        assert woken == woken + [];
      }
      stage := Collects(k + 1);
    }

    method SortTurn(e: Engine)
      requires e.Valid() && forall j :: 0 <= j < |woken| ==> woken[j] < |e.owned|
      modifies this`stage, this`woken
      ensures stage == Rebuilds && woken == WakeOrder(e.View().procs, old(woken))
    {
      hide WakeOrder, Views, InArrivalOrder;
      woken := SortForWaking(e, woken);
      stage := Rebuilds;
    }

    /** Sorts by time of arrival, then PID; a library sort can only have this result, by
        `TickRound.WakeOrderIsUnique`. */
    method SortForWaking(e: Engine, refs: seq<nat>) returns (sorted: seq<nat>)
      requires e.Valid() && forall k :: 0 <= k < |refs| ==> refs[k] < |e.owned|
      ensures sorted == WakeOrder(e.Procs(), refs)
      ensures (forall j, k :: 0 <= j < k < |refs| ==> e.owned[refs[j]].pid != e.owned[refs[k]].pid) ==>
                InArrivalOrder(e.Procs(), sorted)
    {
      sorted := [];
      var k := |refs|;
      while k > 0
        invariant 0 <= k <= |refs| && sorted == WakeOrder(e.Procs(), refs[k..])
      {
        k := k - 1;
        assert refs[k..][1..] == refs[k + 1..];
        sorted := InsertForWaking(e, refs[k], sorted);
      }
      assert refs[0..] == refs;
      hide Views, WakeOrder, Insert;
      SortedByArrival(e, refs);
    }

    method InsertForWaking(e: Engine, p: nat, refs: seq<nat>) returns (inserted: seq<nat>)
      requires e.Valid() && p < |e.owned|
      ensures inserted == Insert(e.Procs(), p, refs)
    {
      ghost var procs := e.Procs();
      var front: seq<nat>, back := [], refs;
      while back != []
        invariant front + Insert(procs, p, back) == Insert(procs, p, refs)
        decreases |back|
      {
        var first := ComesFirst(e, p, back[0]);
        hide Views;
        if first { break; }
        InsertLater(procs, p, back);
        assert front + ([back[0]] + Insert(procs, p, back[1..])) == (front + [back[0]]) + Insert(procs, p, back[1..]);
        front, back := front + [back[0]], back[1..];
      }
      inserted := front + ([p] + back);
    }

    /** The comparison of the sort. */
    method ComesFirst(e: Engine, p: nat, q: nat) returns (first: bool)
      requires e.Valid() && p < |e.owned|
      ensures first == WakesBeforeRef(e.Procs(), p, q)
    {
      if q >= |e.owned| { return false; }
      if e.owned[p].createdAt != e.owned[q].createdAt {
        return e.owned[p].createdAt < e.owned[q].createdAt;
      }
      return e.owned[p].pid < e.owned[q].pid;
    }
  }

  lemma SortedByArrival(e: Engine, refs: seq<nat>)
    requires e.Valid() && forall k :: 0 <= k < |refs| ==> refs[k] < |e.owned|
    ensures (forall j, k :: 0 <= j < k < |refs| ==> e.owned[refs[j]].pid != e.owned[refs[k]].pid) ==>
              InArrivalOrder(e.Procs(), WakeOrder(e.Procs(), refs))
  {
    var procs := e.Procs();
    if forall j, k :: 0 <= j < k < |refs| ==> e.owned[refs[j]].pid != e.owned[refs[k]].pid {
      forall j, k | 0 <= j < k < |refs| ensures procs[refs[j]].pid != procs[refs[k]].pid {
        assert e.owned[refs[j]].pid != e.owned[refs[k]].pid;
      }
      hide Views, InArrivalOrder, WakeOrder;
      WakeOrderSorts(procs, refs);
    }
  }

  lemma InsertLater(procs: seq<Proc>, p: nat, back: seq<nat>)
    requires back != [] && !WakesBeforeRef(procs, p, back[0])
    ensures Insert(procs, p, back) == [back[0]] + Insert(procs, p, back[1..])
  {
  }

  // ---------------------------------------------------------------------------------------------
  // A creator: the generator or the console

  class MakerThread {
    var pid: Option<int>

    ghost function View(): Maker
      reads this
    {
      if pid.Some? then HasPid(pid.value) else Waiting
    }

    constructor ()
      ensures View() == Waiting
    {
      pid := None;
    }

    method Step(e: Engine, draft: Draft)
      requires e.Valid() && Admissible(draft)
      modifies this, e
      ensures e.Valid() && (e.View(), View()) == MakerStep(old(e.View()), old(View()), draft)
      ensures |old(e.owned)| <= |e.owned| && e.owned[..|old(e.owned)|] == old(e.owned)
      ensures fresh(e.owned[|old(e.owned)|..])
      ensures old(pid).None? ==> e.owned == old(e.owned)
      ensures old(pid).Some? ==>
                && |e.owned| == |old(e.owned)| + 1
                && var p := e.owned[|old(e.owned)|];
                   p.program == draft.program && p.name == draft.name && p.pid == old(pid).value
                   && p.createdAt == draft.createdAt
    {
      hide Build, Admissible;
      if pid.Some? {
        AdmitTurn(e, pid.value, draft);
      } else {
        var next := e.TakePid();
        pid := Some(next);
      }
    }

    method AdmitTurn(e: Engine, n: int, draft: Draft)
      requires e.Valid() && Admissible(draft) && pid == Some(n)
      modifies this, e`owned, e`ready, e`parkedAt
      ensures e.Valid() && e.View() == Admit(old(e.View()), Build(n, draft)) && View() == Waiting
      ensures |e.owned| == |old(e.owned)| + 1 && e.owned[..|old(e.owned)|] == old(e.owned)
      ensures var p := e.owned[|old(e.owned)|];
              && fresh(p) && p.program == draft.program && p.name == draft.name && p.pid == n
              && p.createdAt == draft.createdAt
    {
      hide Unroll;
      var p := new Process(n, draft.name, draft.program, draft.createdAt);
      assert p.View() == Build(n, draft);
      e.Admit(p);
      pid := None;
    }
  }

  // ---------------------------------------------------------------------------------------------
  // The machine

  ghost function CoreViews(cpus: seq<Cpu>): (cores: seq<Core>)
    reads cpus
    ensures |cores| == |cpus| && forall i :: 0 <= i < |cpus| ==> cores[i] == cpus[i].View()
  {
    seq(|cpus|, i requires 0 <= i < |cpus| reads cpus => cpus[i].View())
  }

  ghost function MakerViews(makers: seq<MakerThread>): (ms: seq<Maker>)
    reads makers
    ensures |ms| == |makers| && forall j :: 0 <= j < |makers| ==> ms[j] == makers[j].View()
  {
    seq(|makers|, j requires 0 <= j < |makers| reads makers => makers[j].View())
  }

  method NewCpus(n: nat) returns (cpus: seq<Cpu>)
    ensures |cpus| == n && fresh(cpus)
    ensures forall k :: 0 <= k < n ==> cpus[k].coreId == k && cpus[k].View() == IDLE_CORE
  {
    cpus := [];
    for i := 0 to n
      invariant |cpus| == i && fresh(cpus)
      invariant forall k :: 0 <= k < i ==> cpus[k].coreId == k && cpus[k].View() == IDLE_CORE
    {
      var c := new Cpu(i);
      cpus := cpus + [c];
    }
  }

  method NewMakers(n: nat) returns (makers: seq<MakerThread>)
    ensures |makers| == n && fresh(makers)
    ensures forall k :: 0 <= k < n ==> makers[k].View() == Waiting
    ensures forall i, k :: 0 <= i < k < n ==> makers[i] != makers[k]
  {
    makers := [];
    for j := 0 to n
      invariant |makers| == j && fresh(makers)
      invariant forall k :: 0 <= k < j ==> makers[k].View() == Waiting
      invariant forall i, k :: 0 <= i < k < j ==> makers[i] != makers[k]
    {
      var m := new MakerThread();
      makers := makers + [m];
    }
  }

  class Machine {
    const engine: Engine
    const ticker: TickThread
    const cpus: seq<Cpu>
    const makers: seq<MakerThread>

    ghost predicate Valid()
      reads this, engine, engine.owned, cpus, makers
    {
      && engine.Valid()
      && (forall i :: 0 <= i < |cpus| ==> cpus[i].coreId == i)
      && (forall i, j :: 0 <= i < j < |makers| ==> makers[i] != makers[j])
    }

    ghost function View(): System
      requires Valid()
      reads this, engine, engine.owned, cpus, ticker, makers
    {
      System(engine.cfg, engine.View(), CoreViews(cpus), ticker.View(), MakerViews(makers))
    }

    ghost function Owned(): set<Process>
      reads engine
    {
      set p | p in engine.owned
    }

    constructor (cfg: Config, makerCount: nat)
      ensures Valid() && View() == Boot(cfg, makerCount)
      ensures fresh(engine) && fresh(ticker) && fresh(cpus) && fresh(makers) && engine.owned == []
    {
      var e := new Engine(cfg);
      var t := new TickThread();
      var cs := NewCpus(cfg.numCpu);
      var ms := NewMakers(makerCount);
      engine := e;
      ticker := t;
      cpus := cs;
      makers := ms;
      new;
      assert CoreViews(cpus) == seq(cfg.numCpu, _ => IDLE_CORE);
      assert MakerViews(makers) == seq(makerCount, _ => Waiting);
    }

    method CoreTurn(i: nat)
      requires Valid() && Inv(View())
      modifies engine, engine.owned, cpus
      ensures Valid() && engine.owned == old(engine.owned)
      ensures View() == Apply(old(View()), Label.CoreTurn(i))
    {
      hide Inv;
      if i >= |cpus| { return; }
      CurrentExists(View(), i);
      assert View().cores[i] == cpus[i].View();
      cpus[i].Step(engine);
      assert CoreViews(cpus) == old(CoreViews(cpus))[i := cpus[i].View()];
    }

    method TickTurn()
      requires Valid() && Inv(View())
      modifies engine, engine.owned, ticker
      ensures Valid() && engine.owned == old(engine.owned)
      ensures View() == Apply(old(View()), Label.TickTurn)
    {
      hide Inv;
      SnapshotExists(View());
      assert !ticker.stage.Rest? ==> SnapshotOf(View().ticker) == ticker.sleepers;
      ticker.Step(engine);
    }

    method MakerTurn(j: nat, draft: Draft)
      requires Valid() && Admissible(draft)
      modifies engine, makers
      ensures Valid() && fresh(Owned() - old(Owned()))
      ensures View() == Apply(old(View()), Label.MakerTurn(j, draft))
    {
      if j >= |makers| { return; }
      hide Views, MakerStep;
      assert View().makers[j] == makers[j].View();
      makers[j].Step(engine, draft);
      assert engine.owned == engine.owned[..|old(engine.owned)|] + engine.owned[|old(engine.owned)|..];
      assert MakerViews(makers) == old(MakerViews(makers))[j := makers[j].View()];
    }

    /** The thread that the label names takes its next step. */
    method TakeTurn(l: Label)
      requires Valid() && Inv(View()) && AdmissibleLabel(l)
      modifies engine, engine.owned, cpus, ticker, makers
      ensures Valid() && fresh(Owned() - old(Owned()))
      ensures View() == Apply(old(View()), l)
    {
      hide Inv, Apply;
      match l
      case CoreTurn(i) => CoreTurn(i);
      case TickTurn => TickTurn();
      case MakerTurn(j, draft) => MakerTurn(j, draft);
    }

    /** Runs a schedule. The objects end up where the model says, so every theorem about reachable
        states of the model holds of them. */
    method Run(schedule: seq<Label>)
      requires Valid() && Inv(View()) && AdmissibleSchedule(schedule)
      modifies engine, engine.owned, cpus, ticker, makers
      ensures Valid() && fresh(Owned() - old(Owned()))
      ensures View() == Execute(old(View()), schedule) && Inv(View())
    {
      hide Inv, Apply;
      for n := 0 to |schedule|
        invariant Valid() && fresh(Owned() - old(Owned()))
        invariant View() == Execute(old(View()), schedule[..n]) && Inv(View())
      {
        assert schedule[..n + 1][..n] == schedule[..n];
        ApplyKeepsInv(View(), schedule[n]);
        TakeTurn(schedule[n]);
      }
      assert schedule[..|schedule|] == schedule;
    }
  }

  lemma StateOfOwned(e: Engine, p: nat)
    requires e.Valid() && p < |e.owned|
    ensures StateOf(e.View().procs, p) == e.owned[p].state
  {
  }

  /** A machine that has run any schedule since it was started. Its state is a reachable state of the
      model. */
  method Simulate(cfg: Config, makerCount: nat, schedule: seq<Label>) returns (m: Machine)
    requires AdmissibleSchedule(schedule)
    ensures m.Valid() && m.View() == Execute(Boot(cfg, makerCount), schedule)
    ensures IsReachable(m.View())
  {
    hide Inv;
    m := new Machine(cfg, makerCount);
    BootInv(cfg, makerCount);
    m.Run(schedule);
  }

  lemma CurrentExists(s: System, i: nat)
    requires Inv(s) && i < |s.cores|
    ensures s.cores[i].current.Some? ==> s.cores[i].current.value < |s.sh.procs|
  {
    hide SlotsOk, PidsOk, FinishedOk, ProcsOk, ReadyOk, Partition, SleepersOk;
    assert CoreOk(s.cfg, s.sh.procs, s.cores[i]);
  }

  lemma SnapshotExists(s: System)
    requires Inv(s)
    ensures forall k :: 0 <= k < |SnapshotOf(s.ticker)| ==> SnapshotOf(s.ticker)[k] < |s.sh.procs|
    ensures s.ticker.Collecting? ==> forall k :: 0 <= k < |s.ticker.woken| ==> s.ticker.woken[k] < |s.sh.procs|
  {
    hide SlotsOk, PidsOk, FinishedOk, ProcsOk, ReadyOk, Partition, CoresOk;
    var t := s.ticker;
    forall k | 0 <= k < |SnapshotOf(t)| ensures SnapshotOf(t)[k] < |s.sh.procs| {
      assert InRound(s.sh, SnapshotOf(t)[k], BeforeOf(t)[k], k < Ticked(t));
    }
    if t.Collecting? {
      DueAreSleepers(t.sleepers, t.before, t.k);
      forall k | 0 <= k < |t.woken| ensures t.woken[k] < |s.sh.procs| {
        assert t.woken[k] in t.sleepers;
      }
    }
  }
}
