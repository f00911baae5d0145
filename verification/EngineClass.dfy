/** The engine: the lists the threads share. Each method is one lock region, tied to what it does to
    the shared state as a value (module SchedulerSpec). */
module EngineClass {
  import opened Options
  import opened ProcessSpec
  import opened ProcessClass
  import opened SchedulerSpec
  import opened Places

  class Engine {
    const cfg: Config

    var owned: seq<Process>
    var ready: seq<nat>
    var runningProcs: seq<Option<nat>>
    var sleepingProcs: seq<nat>
    var finishedProcs: seq<nat>
    var coresUsed: int
    var nextPid: int
    var tick: nat
    ghost var parkedAt: seq<nat>

    ghost predicate Valid()
      reads this`owned, owned
    {
      && AllValid(owned)
      && (forall j, k :: 0 <= j < k < |owned| ==> owned[j] != owned[k])
    }

    ghost function Procs(): seq<Proc>
      requires Valid()
      reads this`owned, owned
    {
      Views(owned)
    }

    /** The shared state as a value. */
    ghost function View(): Shared
      requires Valid()
      reads this, owned
    {
      Shared(Procs(), ready, runningProcs, sleepingProcs, finishedProcs, coresUsed, nextPid, tick, parkedAt)
    }

    constructor (cfg: Config)
      ensures Valid() && this.cfg == cfg && owned == []
      ensures View() == Shared([], [], seq(cfg.numCpu, _ => None), [], [], 0, 1, 0, [])
    {
      this.cfg := cfg;
      owned := [];
      ready := [];
      runningProcs := seq(cfg.numCpu, _ => None);
      sleepingProcs := [];
      finishedProcs := [];
      coresUsed := 0;
      nextPid := 1;
      tick := 0;
      parkedAt := [];
    }

    // -------------------------------------------------------------------------------------------
    // Lock regions of the cores

    method PopReady() returns (p: Option<nat>)
      requires Valid()
      modifies this`ready
      ensures Valid() && (p, View()) == SchedulerSpec.PopReady(old(View()))
      ensures p.None? ==> old(ready) == ready == []
      ensures p.Some? ==> old(ready) == [p.value] + ready
    {
      if ready == [] { return None; }
      p := Some(ready[0]);
      ready := ready[1..];
    }

    method MarkRunning(p: nat, coreId: nat)
      requires Valid()
      modifies this`runningProcs, this`coresUsed
      ensures Valid() && View() == SchedulerSpec.MarkRunning(old(View()), p, coreId)
      ensures coreId < |runningProcs| ==> runningProcs == old(runningProcs)[coreId := Some(p)]
      ensures coreId >= |runningProcs| ==> runningProcs == old(runningProcs)
      ensures coresUsed == old(coresUsed) + if coreId < |runningProcs| && old(runningProcs)[coreId] == None then 1 else 0
    {
      if coreId >= |runningProcs| { return; }
      if runningProcs[coreId] == Some(p) { return; }
      if runningProcs[coreId] == None {
        coresUsed := coresUsed + 1;
      }
      runningProcs := runningProcs[coreId := Some(p)];
    }

    /** Search-and-clear, the first half of every release. */
    method ReleaseSlot(p: nat)
      requires Valid()
      modifies this`runningProcs, this`coresUsed
      ensures Valid() && View() == Release(old(View()), p)
      ensures Some(p) !in old(runningProcs) ==> runningProcs == old(runningProcs) && coresUsed == old(coresUsed)
      ensures Some(p) in old(runningProcs) ==>
                && coresUsed == old(coresUsed) - 1
                && exists k :: 0 <= k < |old(runningProcs)| && old(runningProcs)[k] == Some(p)
                               && Some(p) !in old(runningProcs)[..k] && runningProcs == old(runningProcs)[k := None]
    {
      var k := 0;
      while k < |runningProcs|
        invariant 0 <= k <= |runningProcs|
        invariant forall j :: 0 <= j < k ==> runningProcs[j] != Some(p)
        invariant runningProcs == old(runningProcs) && coresUsed == old(coresUsed)
      {
        if runningProcs[k] == Some(p) {
          SlotOfUnique(runningProcs, p, k);
          runningProcs := runningProcs[k := None];
          coresUsed := coresUsed - 1;
          return;
        }
        k := k + 1;
      }
      SlotOfUnique(runningProcs, p, k);
    }

    method MarkFinished(p: nat)
      requires Valid()
      modifies this`runningProcs, this`coresUsed, this`finishedProcs
      ensures Valid() && View() == SchedulerSpec.MarkFinished(old(View()), p)
      ensures finishedProcs == old(finishedProcs) + [p]
    {
      ReleaseSlot(p);
      finishedProcs := finishedProcs + [p];
    }

    /** What the policy does with a preempted process. */
    method OnPreempt(p: nat)
      requires Valid() && p < |owned|
      modifies this`ready
      ensures Valid()
      ensures View() == old(View()).(ready := SchedulerSpec.OnPreempt(cfg.policy, owned[p].state, p, old(ready)))
      ensures ready == if cfg.policy == RR && owned[p].state != FINISHED then old(ready) + [p] else old(ready)
    {
      if cfg.policy == FCFS { return; }
      if owned[p].state == FINISHED { return; }
      ready := ready + [p];
    }

    method Preempt(p: nat)
      requires Valid() && p < |owned|
      modifies this`runningProcs, this`coresUsed, this`ready
      ensures Valid() && View() == SchedulerSpec.Preempt(old(View()), p, cfg.policy)
      ensures ready == if cfg.policy == RR && owned[p].state != FINISHED then old(ready) + [p] else old(ready)
    {
      ReleaseSlot(p);
      OnPreempt(p);
    }

    method MoveToSleeping(p: nat)
      requires Valid()
      modifies this`runningProcs, this`coresUsed, this`sleepingProcs, this`parkedAt
      ensures Valid() && View() == SchedulerSpec.MoveToSleeping(old(View()), p)
      ensures sleepingProcs == if p in old(sleepingProcs) then old(sleepingProcs) else old(sleepingProcs) + [p]
    {
      ReleaseSlot(p);
      if p < |parkedAt| {
        parkedAt := parkedAt[p := tick];
      }
      if p !in sleepingProcs {
        sleepingProcs := sleepingProcs + [p];
      }
    }

    // -------------------------------------------------------------------------------------------
    // Calls into a process, with no lock held

    method CallExecuteNext(p: nat)
      requires Valid() && p < |owned|
      modifies owned[p]
      ensures Valid() && View() == Run(old(View()), p)
    {
      owned[p].ExecuteNext();
      assert Procs() == old(Procs())[p := owned[p].View()];
    }

    method CallTickSleep(p: nat)
      requires Valid() && p < |owned|
      modifies owned[p]
      ensures Valid() && View() == Tick(old(View()), p)
    {
      owned[p].TickSleep();
      assert Procs() == old(Procs())[p := owned[p].View()];
    }

    // -------------------------------------------------------------------------------------------
    // The tick thread

    method BeginTick() returns (sleepers: seq<nat>)
      requires Valid()
      modifies this`tick
      ensures Valid() && View() == old(View()).(tick := old(tick) + 1) && sleepers == sleepingProcs
    {
      tick := tick + 1;
      sleepers := sleepingProcs;
    }

    /** Rebuilds the lists from what they are now. */
    method Rebuild(wokenOrdered: seq<nat>)
      requires Valid()
      modifies this`ready, this`sleepingProcs
      ensures Valid() && View() == SchedulerSpec.Rebuild(old(View()), wokenOrdered)
      ensures forall p :: p in sleepingProcs <==> p in old(sleepingProcs) && p !in wokenOrdered
      ensures |ready| >= |old(ready)| && ready[|ready| - |old(ready)|..] == old(ready)
      ensures forall p :: p in ready[..|ready| - |old(ready)|] <==> p in wokenOrdered && p in old(sleepingProcs)
    {
      hide Views, Those, Others;
      var stillTracked, stillSleeping := SplitSleepers(wokenOrdered);
      var toWake := OnlyTracked(wokenOrdered, stillTracked);
      SplitKeepsAll(sleepingProcs, wokenOrdered);
      SplitKeepsAll(wokenOrdered, stillTracked);
      ready := toWake + ready;
      sleepingProcs := stillSleeping;
      assert ready[..|ready| - |old(ready)|] == toWake;
    }

    /** The first loop of the rebuild. */
    method SplitSleepers(wokenOrdered: seq<nat>) returns (stillTracked: seq<nat>, stillSleeping: seq<nat>)
      ensures stillTracked == Those(sleepingProcs, wokenOrdered)
      ensures stillSleeping == Others(sleepingProcs, wokenOrdered)
    {
      stillTracked, stillSleeping := [], [];
      for k := 0 to |sleepingProcs|
        invariant stillTracked == Those(sleepingProcs[..k], wokenOrdered)
        invariant stillSleeping == Others(sleepingProcs[..k], wokenOrdered)
      {
        assert sleepingProcs[..k + 1][..k] == sleepingProcs[..k];
        if sleepingProcs[k] in wokenOrdered {
          stillTracked := stillTracked + [sleepingProcs[k]];
        } else {
          stillSleeping := stillSleeping + [sleepingProcs[k]];
        }
      }
      assert sleepingProcs[..|sleepingProcs|] == sleepingProcs;
    }

    /** The second loop of the rebuild. */
    method OnlyTracked(wokenOrdered: seq<nat>, stillTracked: seq<nat>) returns (toWake: seq<nat>)
      ensures toWake == Those(wokenOrdered, stillTracked)
    {
      toWake := [];
      for k := 0 to |wokenOrdered|
        invariant toWake == Those(wokenOrdered[..k], stillTracked)
      {
        assert wokenOrdered[..k + 1][..k] == wokenOrdered[..k];
        if wokenOrdered[k] in stillTracked {
          toWake := toWake + [wokenOrdered[k]];
        }
      }
      assert wokenOrdered[..|wokenOrdered|] == wokenOrdered;
    }

    // -------------------------------------------------------------------------------------------
    // The creators

    method TakePid() returns (pid: int)
      requires Valid()
      modifies this`nextPid
      ensures Valid() && View() == SchedulerSpec.TakePid(old(View())) && pid == old(nextPid) && nextPid == pid + 1
    {
      pid := nextPid;
      nextPid := nextPid + 1;
    }

    method Admit(p: Process)
      requires Valid() && p.Valid() && p !in owned
      modifies this`owned, this`ready, this`parkedAt
      ensures owned == old(owned) + [p] && ready == old(ready) + [|old(owned)|]
      ensures Valid() && View() == SchedulerSpec.Admit(old(View()), p.View())
    {
      ready := ready + [|owned|];
      owned := owned + [p];
      parkedAt := parkedAt + [0];
      assert Procs() == old(Procs()) + [p.View()];
    }
  }
}
