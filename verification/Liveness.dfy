/** Every process finishes. In a run in which each core and the tick thread keep taking turns, every
    process that ever arrives reaches the end of its program, whatever else arrives meanwhile. */
module Liveness {
  import opened Arithmetic
  import opened Instructions
  import opened History
  import opened Options
  import opened ProcessSpec
  import opened SchedulerSpec
  import opened Threads
  import opened Places
  import opened Invariant
  import opened Reachable
  import opened Work
  import opened Queueing
  import opened Distances
  import opened Creators

  // ---------------------------------------------------------------------------------------------
  // Endless runs

  /** Who takes the next turn, for ever. */
  type Run = nat -> Label

  function StateAt(s: System, run: Run, n: nat): System {
    if n == 0 then s else Apply(StateAt(s, run, n - 1), run(n - 1))
  }

  function Prefix(run: Run, n: nat): seq<Label> {
    if n == 0 then [] else Prefix(run, n - 1) + [run(n - 1)]
  }

  ghost predicate AdmissibleRun(run: Run) {
    forall n: nat :: AdmissibleLabel(run(n))
  }

  ghost predicate TakesATurn(run: Run, l: Label, k: nat) {
    exists n: nat :: n >= k && run(n) == l
  }

  /** Each core and the tick thread take a turn again and again. Nothing is asked of the creators. */
  ghost predicate Fair(run: Run, cores: nat) {
    && (forall k: nat :: TakesATurn(run, TickTurn, k))
    && (forall i: nat, k: nat :: i < cores ==> TakesATurn(run, CoreTurn(i), k))
  }

  lemma {:induction false} PrefixLength(run: Run, n: nat)
    ensures |Prefix(run, n)| == n && forall k :: 0 <= k < n ==> Prefix(run, n)[k] == run(k)
  {
    if n > 0 {
      PrefixLength(run, n - 1);
    }
  }

  /** A run is what all its prefixes, as schedules, lead to. */
  lemma {:induction false} RunExecutes(s: System, run: Run, n: nat)
    ensures StateAt(s, run, n) == Execute(s, Prefix(run, n))
  {
    hide Apply;
    if n > 0 {
      RunExecutes(s, run, n - 1);
      assert Prefix(run, n)[..|Prefix(run, n)| - 1] == Prefix(run, n - 1);
    }
  }

  lemma RunKeepsInv(s: System, run: Run, n: nat)
    requires Inv(s) && AdmissibleRun(run)
    ensures Inv(StateAt(s, run, n)) && StateAt(s, run, n).cfg == s.cfg
  {
    hide Inv;
    PrefixLength(run, n);
    RunExecutes(s, run, n);
    ExecuteKeepsInv(s, Prefix(run, n));
  }

  /** As long as a process has not finished, there is a later state in which it is nearer to its end:
      at the latest the one after the next turn of its helper. */
  lemma {:induction false} NearerLater(s: System, run: Run, p: nat, k: nat, turn: nat) returns (n: nat)
    requires Inv(s) && s.cfg.numCpu > 0 && AdmissibleRun(run)
    requires p < |StateAt(s, run, k).sh.procs| && p !in StateAt(s, run, k).sh.finished
    requires k <= turn && run(turn) == Helper(StateAt(s, run, k), p)
    ensures n > k && p < |StateAt(s, run, n).sh.procs|
    ensures DistanceOf(StateAt(s, run, n), p).LessThan(DistanceOf(StateAt(s, run, k), p))
    decreases turn - k
  {
    hide Inv, Apply, DistanceOf, Helper, AdmissibleLabel;
    var t := StateAt(s, run, k);
    RunKeepsInv(s, run, k);
    RunKeepsInv(s, run, k + 1);
    HelpfulStep(t, run(k), p);
    var next := StateAt(s, run, k + 1);
    if DistanceOf(next, p).LessThan(DistanceOf(t, p)) {
      n := k + 1;
    } else {
      StillUnfinished(t, next, p);
      n := NearerLater(s, run, p, k + 1, turn);
    }
  }

  lemma StillUnfinished(s: System, t: System, p: nat)
    requires Inv(s) && Inv(t) && p < |s.sh.procs| && p < |t.sh.procs| && p !in s.sh.finished
    requires DistanceOf(t, p) == DistanceOf(s, p)
    ensures p !in t.sh.finished
  {
    hide Inv, DistanceOf, Held, Fuel, WaitBudget, TicksToGo;
    Whereabouts(s, p);
    if p in t.sh.finished {
      AtTheEnd(t, p);
      if p in s.sh.ready {
        InQueue(s, p);
      } else if p in s.sh.sleeping {
        InBed(s, p);
      } else {
        var i :| 0 <= i < |s.cores| && Held(s.cores[i]) == Some(p);
        InHands(s, p, i);
      }
    }
  }

  lemma HelperComes(s: System, run: Run, p: nat, k: nat) returns (turn: nat)
    requires Inv(s) && s.cfg.numCpu > 0 && AdmissibleRun(run) && Fair(run, s.cfg.numCpu)
    requires p < |StateAt(s, run, k).sh.procs| && p !in StateAt(s, run, k).sh.finished
    ensures turn >= k && run(turn) == Helper(StateAt(s, run, k), p)
  {
    hide Inv, Helps, Helper, AdmissibleLabel, StateAt;
    var t := StateAt(s, run, k);
    RunKeepsInv(s, run, k);
    HelpfulStep(t, run(k), p);
    assert TakesATurn(run, Helper(t, p), k) by {
      if Helper(t, p) == TickTurn {
        assert TakesATurn(run, TickTurn, k);
      } else {
        var i :| 0 <= i < s.cfg.numCpu && Helper(t, p) == CoreTurn(i);
        assert TakesATurn(run, CoreTurn(i), k);
      }
    }
    turn :| turn >= k && run(turn) == Helper(t, p);
  }

  lemma {:induction false} GetsThere(s: System, run: Run, p: nat, k: nat) returns (n: nat)
    requires Inv(s) && s.cfg.numCpu > 0 && AdmissibleRun(run) && Fair(run, s.cfg.numCpu)
    requires p < |StateAt(s, run, k).sh.procs|
    ensures n >= k && p in StateAt(s, run, n).sh.finished
    decreases DistanceOf(StateAt(s, run, k), p).fuel, DistanceOf(StateAt(s, run, k), p).stage,
              DistanceOf(StateAt(s, run, k), p).sleep, DistanceOf(StateAt(s, run, k), p).countdown
  {
    hide Inv, StateAt, DistanceOf, Helper, AdmissibleRun, Fair;
    if p in StateAt(s, run, k).sh.finished {
      n := k;
    } else {
      var turn := HelperComes(s, run, p, k);
      var m := NearerLater(s, run, p, k, turn);
      RunKeepsInv(s, run, k);
      DistanceIsNatural(StateAt(s, run, k), p);
      n := GetsThere(s, run, p, m);
    }
  }

  // ---------------------------------------------------------------------------------------------
  // What has finished stays finished

  lemma FinishedListGrows(s: System, l: Label)
    ensures s.sh.finished <= Apply(s, l).sh.finished
  {
    hide CoreStep, Those, Others, Snapshot, WakeOrder, TickSleep;
    match l
    case CoreTurn(i) => if i < |s.cores| { CoreKeepsFinished(s.cfg, i, s.sh, s.cores[i]); }
    case TickTurn =>
    case MakerTurn(j, d) =>
  }

  lemma CoreKeepsFinished(cfg: Config, i: nat, sh: Shared, c: Core)
    ensures sh.finished <= CoreStep(cfg, i, sh, c).0.finished
  {
    hide SlotOf, ExecuteNext;
  }

  lemma {:induction false} FinishedStaysForever(s: System, run: Run, p: nat, k: nat, n: nat)
    requires Inv(s) && AdmissibleRun(run) && k <= n && p < |StateAt(s, run, k).sh.procs|
    ensures p < |StateAt(s, run, n).sh.procs|
    ensures SameIdentity(StateAt(s, run, k).sh.procs[p], StateAt(s, run, n).sh.procs[p])
    ensures p in StateAt(s, run, k).sh.finished ==> p in StateAt(s, run, n).sh.finished
    decreases n
  {
    hide Inv, Apply, AdmissibleLabel;
    if k < n {
      FinishedStaysForever(s, run, p, k, n - 1);
      RunKeepsInv(s, run, n - 1);
      FuelStep(StateAt(s, run, n - 1), run(n - 1), p);
      FinishedListGrows(StateAt(s, run, n - 1), run(n - 1));
    }
  }

  // ---------------------------------------------------------------------------------------------
  // The theorems

  /** On the finished list, at the end of its program, with the log and the variables that the history
      of the whole program says. */
  ghost predicate Done(s: System, p: nat, name: string, code: seq<Atomic>) {
    && p < |s.sh.procs| && p in s.sh.finished && s.sh.procs[p].state == FINISHED
    && s.sh.procs[p].name == name && s.sh.procs[p].code == code && s.sh.procs[p].line == |code|
    && Shows(s.sh.procs[p].memory, name, code)
  }

  lemma FinishedIsDone(s: System, p: nat)
    requires Inv(s) && p in s.sh.finished
    ensures p < |s.sh.procs| && Done(s, p, s.sh.procs[p].name, s.sh.procs[p].code)
  {
    hide SlotsOk, PidsOk, ReadyOk, CoresOk, SleepersOk, Partition, Indistinguishable, Meaning, Shows;
    FinishedIsFinal(s.sh.procs[p]);
    ShowsHistory(s.sh.procs[p].memory, s.sh.procs[p].name, s.sh.procs[p].code);
  }

  /** Total correctness of every process: whenever it arrives, under either policy, with any delay
      and quantum, and whatever stream of others arrives before and after it, there is a moment from
      which on it is on the finished list and shows the meaning of its program. All this takes is that
      no core and not the tick thread is stopped for ever. */
  lemma EveryProcessFinishes(s: System, run: Run, p: nat, k: nat) returns (n: nat)
    requires IsReachable(s) && s.cfg.numCpu > 0 && AdmissibleRun(run) && Fair(run, s.cfg.numCpu)
    requires p < |StateAt(s, run, k).sh.procs|
    ensures n >= k
    ensures var q := StateAt(s, run, k).sh.procs[p];
            forall m: nat :: m >= n ==> Done(StateAt(s, run, m), p, q.name, q.code)
  {
    ReachableInv(s);
    hide Inv, IsReachable, StateAt, Done, AdmissibleRun, Fair;
    n := GetsThere(s, run, p, k);
    var q := StateAt(s, run, k).sh.procs[p];
    forall m: nat | m >= n ensures Done(StateAt(s, run, m), p, q.name, q.code) {
      FinishedStaysForever(s, run, p, k, n);
      FinishedStaysForever(s, run, p, n, m);
      RunKeepsInv(s, run, m);
      FinishedIsDone(StateAt(s, run, m), p);
    }
  }

  /** Total correctness from the draft on: when a creator with a PID in hand takes its turn, there is a
      later moment from which on the process with that PID and the drafted name is finished and shows
      what the drafted program prints and computes. */
  lemma EveryDraftFinishes(s: System, run: Run, k: nat, j: nat, pid: int, d: Draft) returns (n: nat)
    requires IsReachable(s) && s.cfg.numCpu > 0 && AdmissibleRun(run) && Fair(run, s.cfg.numCpu)
    requires run(k) == MakerTurn(j, d)
    requires j < |StateAt(s, run, k).makers| && StateAt(s, run, k).makers[j] == HasPid(pid)
    ensures n > k
    ensures var p := |StateAt(s, run, k).sh.procs|;
            forall m: nat :: m >= n ==>
              && Done(StateAt(s, run, m), p, d.name, Unroll(d.program))
              && StateAt(s, run, m).sh.procs[p].pid == pid && StateAt(s, run, m).sh.procs[p].createdAt == d.createdAt
  {
    var p := |StateAt(s, run, k).sh.procs|;
    assert Admissible(d) by { assert AdmissibleLabel(run(k)); }
    assert StateAt(s, run, k + 1) == Apply(StateAt(s, run, k), MakerTurn(j, d));
    QueuesTheDraft(StateAt(s, run, k), j, pid, d);
    ReachableInv(s);
    hide Inv, IsReachable, StateAt, Done, AdmissibleRun, Fair, Apply, Unroll, Admissible;
    n := EveryProcessFinishes(s, run, p, k + 1);
    forall m: nat | m >= n
      ensures && Done(StateAt(s, run, m), p, d.name, Unroll(d.program))
              && p < |StateAt(s, run, m).sh.procs|
              && StateAt(s, run, m).sh.procs[p].pid == pid && StateAt(s, run, m).sh.procs[p].createdAt == d.createdAt
    {
      FinishedStaysForever(s, run, p, k + 1, m);
    }
  }

  predicate AllFinished(s: System) {
    forall p :: 0 <= p < |s.sh.procs| ==> s.sh.procs[p].state == FINISHED
  }

  predicate NoArrivals(schedule: seq<Label>) {
    forall k :: 0 <= k < |schedule| ==> !schedule[k].MakerTurn?
  }

  lemma {:induction false} RunWithoutArrivals(s: System, schedule: seq<Label>)
    requires Inv(s) && AdmissibleSchedule(schedule) && NoArrivals(schedule)
    ensures CallsMade(s, schedule) + Sum(FuelOf(Execute(s, schedule).sh.procs)) == Sum(FuelOf(s.sh.procs))
    ensures |Execute(s, schedule).sh.procs| == |s.sh.procs|
  {
    hide Inv, Apply, FuelOf;
    if schedule != [] {
      var n := |schedule| - 1;
      RunWithoutArrivals(s, schedule[..n]);
      ExecuteKeepsInv(s, schedule[..n]);
      TotalFuelStep(Execute(s, schedule[..n]), schedule[n]);
      NobodyArrives(Execute(s, schedule[..n]), schedule[n]);
    }
  }

  /** The first `count` processes are on the finished list. */
  predicate FirstFinished(s: System, count: nat) {
    forall p: nat :: p < count ==> p in s.sh.finished
  }

  lemma FirstFinishedStay(s: System, run: Run, count: nat, k: nat, n: nat)
    requires Inv(s) && AdmissibleRun(run) && k <= n && FirstFinished(StateAt(s, run, k), count)
    ensures FirstFinished(StateAt(s, run, n), count)
  {
    hide Inv, StateAt;
    RunKeepsInv(s, run, k);
    forall p: nat | p < count ensures p in StateAt(s, run, n).sh.finished {
      FinishedIsDone(StateAt(s, run, k), p);
      FinishedStaysForever(s, run, p, k, n);
    }
  }

  lemma OneMoreFinished(s: System, run: Run, count: nat, before: nat, last: nat) returns (n: nat)
    requires Inv(s) && AdmissibleRun(run) && FirstFinished(StateAt(s, run, before), count)
    requires count < |s.sh.procs| && count in StateAt(s, run, last).sh.finished
    ensures FirstFinished(StateAt(s, run, n), count + 1)
  {
    assert StateAt(s, run, 0) == s;
    hide Inv, StateAt, AdmissibleRun;
    n := if before > last then before else last;
    FirstFinishedStay(s, run, count, before, n);
    FinishedStaysForever(s, run, count, 0, last);
    FinishedStaysForever(s, run, count, last, n);
  }

  lemma {:induction false} AllGetThere(s: System, run: Run, count: nat) returns (n: nat)
    requires Inv(s) && s.cfg.numCpu > 0 && AdmissibleRun(run) && Fair(run, s.cfg.numCpu)
    requires count <= |s.sh.procs|
    ensures FirstFinished(StateAt(s, run, n), count)
    decreases count
  {
    hide Inv, AdmissibleRun, Fair;
    if count == 0 {
      n := 0;
    } else {
      assert StateAt(s, run, 0) == s;
      hide StateAt, FirstFinished;
      var before := AllGetThere(s, run, count - 1);
      var last := GetsThere(s, run, count - 1, 0);
      n := OneMoreFinished(s, run, count - 1, before, last);
    }
  }

  /** Once arrivals have stopped, every fair run comes to a state from which on everything is FINISHED,
      with exactly as many calls as there was fuel. */
  lemma FairRunsDrain(s: System, run: Run) returns (n: nat)
    requires IsReachable(s) && s.cfg.numCpu > 0 && Fair(run, s.cfg.numCpu)
    requires forall k: nat :: !run(k).MakerTurn?
    ensures forall m: nat :: m >= n ==>
              AllFinished(StateAt(s, run, m)) && CallsMade(s, Prefix(run, m)) == Sum(FuelOf(s.sh.procs))
  {
    assert AdmissibleRun(run);
    ReachableInv(s);
    hide Inv, IsReachable, Fair, StateAt, AdmissibleRun, FuelOf, AllFinished, FirstFinished;
    n := AllGetThere(s, run, |s.sh.procs|);
    forall m: nat | m >= n
      ensures AllFinished(StateAt(s, run, m)) && CallsMade(s, Prefix(run, m)) == Sum(FuelOf(s.sh.procs))
    {
      FirstFinishedStay(s, run, |s.sh.procs|, n, m);
      DrainedAt(s, run, m);
    }
  }

  lemma DrainedAt(s: System, run: Run, m: nat)
    requires Inv(s) && AdmissibleRun(run) && (forall k: nat :: !run(k).MakerTurn?)
    requires FirstFinished(StateAt(s, run, m), |s.sh.procs|)
    ensures AllFinished(StateAt(s, run, m)) && CallsMade(s, Prefix(run, m)) == Sum(FuelOf(s.sh.procs))
  {
    hide Inv, StateAt, FuelOf, CallsMade, AdmissibleLabel, Execute;
    PrefixLength(run, m);
    RunExecutes(s, run, m);
    RunWithoutArrivals(s, Prefix(run, m));
    RunKeepsInv(s, run, m);
    forall p | 0 <= p < |StateAt(s, run, m).sh.procs|
      ensures StateAt(s, run, m).sh.procs[p].state == FINISHED
    {
      FinishedIsDone(StateAt(s, run, m), p);
    }
    NoFuelIffAllFinished(StateAt(s, run, m));
  }

  // ---------------------------------------------------------------------------------------------
  // There are fair runs

  /** The cores and the tick thread in turn. */
  function RoundRobin(cores: nat): Run {
    k => if k % (cores + 1) < cores then CoreTurn(k % (cores + 1)) else TickTurn
  }

  lemma TurnComes(cores: nat, i: nat, k: nat)
    requires i <= cores
    ensures TakesATurn(RoundRobin(cores), if i < cores then CoreTurn(i) else TickTurn, k)
  {
    var n := (cores + 1) * k + i;
    DivisionIs(n, cores + 1, k, i);
    assert n >= k;
    assert RoundRobin(cores)(n) == if i < cores then CoreTurn(i) else TickTurn;
  }

  lemma RoundRobinIsFair(cores: nat)
    ensures Fair(RoundRobin(cores), cores)
  {
    hide RoundRobin, TakesATurn;
    forall k: nat ensures TakesATurn(RoundRobin(cores), TickTurn, k) {
      TurnComes(cores, cores, k);
    }
    forall i: nat, k: nat | i < cores ensures TakesATurn(RoundRobin(cores), CoreTurn(i), k) {
      TurnComes(cores, i, k);
    }
  }

  /** No deadlock: every reachable state of a system with a core can go on, with no help from outside,
      until all processes are FINISHED. The calls this takes are exactly the fuel that was left. */
  lemma NeverStuck(s: System) returns (schedule: seq<Label>)
    requires IsReachable(s) && s.cfg.numCpu > 0
    ensures AdmissibleSchedule(schedule) && NoArrivals(schedule)
    ensures AllFinished(Execute(s, schedule))
    ensures CallsMade(s, schedule) == Sum(FuelOf(s.sh.procs))
  {
    var run := RoundRobin(s.cfg.numCpu);
    hide IsReachable, Fair, Execute, StateAt, AllFinished;
    RoundRobinIsFair(s.cfg.numCpu);
    var n := FairRunsDrain(s, run);
    PrefixLength(run, n);
    RunExecutes(s, run, n);
    schedule := Prefix(run, n);
  }
}
