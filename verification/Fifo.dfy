/** First come, first served: the order in which one FCFS core finishes programs that never sleep. */
module Fifo {
  import opened Instructions
  import opened ProcessSpec
  import opened SchedulerSpec
  import opened Threads
  import opened Places
  import opened Invariant
  import opened Reachable
  import opened Work

  predicate NeverSleeps(code: seq<Atomic>) {
    forall k :: 0 <= k < |code| && code[k].Sleep? ==> code[k].ticks == 0
  }

  predicate SleeplessLabel(l: Label) {
    l.MakerTurn? ==> NeverSleeps(Unroll(l.draft.program))
  }

  predicate SleeplessSchedule(schedule: seq<Label>) {
    forall k :: 0 <= k < |schedule| ==> SleeplessLabel(schedule[k])
  }

  function InHand(c: Core): seq<nat> {
    if Held(c).None? then [] else [Held(c).value]
  }

  /** References are handed out in the order of arrival. */
  function Arrivals(n: nat): seq<nat> {
    if n == 0 then [] else Arrivals(n - 1) + [n - 1]
  }

  /** Finished, in hand, queued: together the arrival history. */
  ghost predicate InOrder(s: System) {
    |s.cores| == 1 && s.sh.finished + InHand(s.cores[0]) + s.sh.ready == Arrivals(|s.sh.procs|)
  }

  ghost predicate FifoInv(s: System) {
    && Inv(s) && s.cfg.policy == FCFS && s.sh.sleeping == []
    && (forall p :: 0 <= p < |s.sh.procs| ==> NeverSleeps(s.sh.procs[p].code))
    && InOrder(s)
  }

  lemma NobodyWaits(s: System, p: nat)
    requires FifoInv(s) && p < |s.sh.procs|
    ensures s.sh.procs[p].state != WAITING
  {
    hide SlotsOk, PidsOk, FinishedOk, ReadyOk, CoresOk, SleepersOk, Partition, InOrder, Progress;
    var q := s.sh.procs[p];
    assert Good(q) && NeverSleeps(q.code);
    assert LastSleep(q) == 0;
  }

  lemma FifoCoreTurn(s: System)
    requires FifoInv(s) && |s.cores| == 1
    ensures var s' := Apply(s, CoreTurn(0)); s'.sh.sleeping == [] && InOrder(s')
  {
    hide SlotsOk, PidsOk, FinishedOk, ReadyOk, SleepersOk, Partition, ProcsOk, Arrivals, NeverSleeps;
    var c := s.cores[0];
    assert CoreOk(s.cfg, s.sh.procs, c);
    assert c.pc != Parking by {
      if c.pc == Parking { NobodyWaits(s, c.current.value); }
    }
    assert |Apply(s, CoreTurn(0)).sh.procs| == |s.sh.procs| by { CoreTurnOnProcs(s, 0); }
    hide SlotOf, ExecuteNext, SliceAfterCall, SliceBetweenCalls, CoresOk;
    FifoCoreStep(s.cfg, s.sh, c);
  }

  /** What one core step does to the order. */
  lemma FifoCoreStep(cfg: Config, sh: Shared, c: Core)
    requires cfg.policy == FCFS && c.pc != Parking && CoreOk(cfg, sh.procs, c)
    ensures var (sh', c') := CoreStep(cfg, 0, sh, c);
            && sh'.sleeping == sh.sleeping
            && sh'.finished + InHand(c') + sh'.ready == sh.finished + InHand(c) + sh.ready
  {
    hide SlotOf, ExecuteNext, SliceAfterCall, SliceBetweenCalls;
    if sh.ready != [] {
      assert sh.ready == [sh.ready[0]] + sh.ready[1..];
      assert sh.finished + [] + sh.ready == sh.finished + [sh.ready[0]] + sh.ready[1..];
    }
    if c.pc == Finishing {
      var p := c.current.value;
      assert sh.finished + [p] + sh.ready == (sh.finished + [p]) + [] + sh.ready;
    }
  }

  lemma NobodyWakes(s: System)
    requires FifoInv(s)
    ensures s.ticker.Rebuilding? ==> s.ticker.woken == []
    ensures s.ticker.Ticking? ==> s.ticker.sleepers == []
  {
    hide SlotsOk, PidsOk, FinishedOk, ReadyOk, CoresOk, Partition, ProcsOk, InOrder, NeverSleeps;
    assert SnapshotOf(s.ticker) == [];
    if s.ticker.Rebuilding? {
      EmptyBag(s.ticker.woken);
    }
  }

  lemma EmptyBag(woken: seq<nat>)
    requires multiset(woken) == multiset{}
    ensures woken == []
  {
    assert |multiset(woken)| == |woken|;
  }

  lemma FifoStep(s: System, l: Label)
    requires FifoInv(s) && AdmissibleLabel(l) && SleeplessLabel(l)
    ensures FifoInv(Apply(s, l))
  {
    ApplyKeepsInv(s, l);
    var s' := Apply(s, l);
    hide Inv, Admissible, NeverSleeps;
    assert InOrder(s') && s'.sh.sleeping == [] by { FifoOrderStep(s, l); }
    forall p | 0 <= p < |s'.sh.procs| ensures NeverSleeps(s'.sh.procs[p].code) {
      if p < |s.sh.procs| {
        FuelStep(s, l, p);
      } else {
        NewcomerNeverSleeps(s, l, p);
      }
    }
  }

  lemma NewcomerNeverSleeps(s: System, l: Label, p: nat)
    requires FifoInv(s) && SleeplessLabel(l) && |s.sh.procs| <= p < |Apply(s, l).sh.procs|
    ensures NeverSleeps(Apply(s, l).sh.procs[p].code)
  {
    hide NeverSleeps, Inv, InOrder;
    match l
    case CoreTurn(i) => if i < |s.cores| { CoreTurnOnProcs(s, i); }
    case TickTurn => var q := TickTurnOnProcs(s);
    case MakerTurn(j, d) =>
  }

  lemma FifoOrderStep(s: System, l: Label)
    requires FifoInv(s)
    ensures InOrder(Apply(s, l)) && Apply(s, l).sh.sleeping == []
  {
    hide Inv, NeverSleeps;
    match l
    case CoreTurn(i) => if i < |s.cores| { FifoCoreTurn(s); }
    case TickTurn => NobodyWakes(s);
    case MakerTurn(j, d) =>
      if j < |s.makers| && s.makers[j].HasPid? {
        var n := |s.sh.procs|;
        assert s.sh.finished + InHand(s.cores[0]) + (s.sh.ready + [n])
               == (s.sh.finished + InHand(s.cores[0]) + s.sh.ready) + [n];
      }
  }

  lemma {:induction false} FifoRun(s: System, schedule: seq<Label>)
    requires FifoInv(s) && AdmissibleSchedule(schedule) && SleeplessSchedule(schedule)
    ensures FifoInv(Execute(s, schedule))
  {
    hide FifoInv, Apply;
    if schedule != [] {
      var n := |schedule| - 1;
      FifoRun(s, schedule[..n]);
      FifoStep(Execute(s, schedule[..n]), schedule[n]);
    }
  }

  /** One FCFS core and programs that never sleep: in every reachable state the finished processes,
      then the one in hand, then the queue, are all processes in the order of their arrival. */
  lemma ServedInOrder(cfg: Config, makers: nat, schedule: seq<Label>)
    requires cfg.numCpu == 1 && cfg.policy == FCFS
    requires AdmissibleSchedule(schedule) && SleeplessSchedule(schedule)
    ensures InOrder(Execute(Boot(cfg, makers), schedule))
  {
    BootInv(cfg, makers);
    hide Inv;
    assert FifoInv(Boot(cfg, makers));
    FifoRun(Boot(cfg, makers), schedule);
  }
}
