/** Every schedule of every number of cores and creators keeps the invariant, and what follows from
    it about every reachable state. */
module Reachable {
  import opened Instructions
  import opened Options
  import opened ProcessSpec
  import opened SchedulerSpec
  import opened Threads
  import opened Places
  import opened Invariant
  import opened TickRound

  // ---------------------------------------------------------------------------------------------
  // Creators

  lemma TakePidStep(s: System, j: nat, d: Draft)
    requires Inv(s) && j < |s.makers| && s.makers[j].Waiting?
    ensures Inv(Apply(s, MakerTurn(j, d)))
  {
    hide Partition, SlotsOk, FinishedOk, ProcsOk, ReadyOk, CoresOk;
    var s' := Apply(s, MakerTurn(j, d));
    SharedAlike(s.sh, s'.sh, s.cores);
    SleepersFrame(s.sh, s'.sh, s.ticker);
  }

  lemma AdmitPids(procs: seq<Proc>, makers: seq<Maker>, nextPid: int, j: nat, proc: Proc)
    requires PidsOk(procs, makers, nextPid) && j < |makers| && makers[j] == HasPid(proc.pid)
    ensures PidsOk(procs + [proc], makers[j := Waiting], nextPid)
  {
    assert PendingPid(makers[j]) == Some(proc.pid);
    var procs', makers' := procs + [proc], makers[j := Waiting];
    forall k | 0 <= k < |makers| ensures PendingPid(makers'[k]) == if k == j then None else PendingPid(makers[k]) {
    }
    assert forall k, p :: 0 <= k < |makers| && 0 <= p < |procs| ==> PendingPid(makers[k]) != Some(procs[p].pid);
    hide PendingPid;
    forall k, p | 0 <= k < |makers'| && 0 <= p < |procs'| ensures PendingPid(makers'[k]) != Some(procs'[p].pid) {
      if p == |procs| {
        if k < j {
          assert PendingPid(makers[k]).Some? ==> PendingPid(makers[k]) != PendingPid(makers[j]);
        } else if j < k {
          assert PendingPid(makers[j]) != PendingPid(makers[k]);
        }
      }
    }
    forall p, q | 0 <= p < q < |procs'| ensures procs'[p].pid != procs'[q].pid {
      assert PendingPid(makers[j]) != Some(procs[p].pid);
    }
  }

  lemma AdmitStep(s: System, j: nat, d: Draft)
    requires Inv(s) && j < |s.makers| && s.makers[j].HasPid? && Admissible(d)
    ensures Inv(Apply(s, MakerTurn(j, d)))
  {
    hide Partition, SlotsOk, SleepersOk, PidsOk, CoreOk;
    var proc := Build(s.makers[j].pid, d);
    NewProcIsGood(s.makers[j].pid, d.name, d.createdAt, Unroll(d.program));
    var s' := Apply(s, MakerTurn(j, d));
    AdmitPids(s.sh.procs, s.makers, s.sh.nextPid, j, proc);
    AdmitPlaces(s.sh, proc, s.cores);
    SleepersFrame(s.sh, s'.sh, s.ticker);
    CoresFrame(s.cfg, s.sh.procs, s'.sh.procs, s.cores, |s.cores|);
  }

  lemma AdmitPlaces(sh: Shared, proc: Proc, cores: seq<Core>)
    requires SlotsOk(sh, cores) && Partition(sh, cores)
    ensures SlotsOk(Admit(sh, proc), cores) && Partition(Admit(sh, proc), cores)
  {
    var next := Admit(sh, proc);
    var arrived: multiset<nat> := multiset{|sh.procs|};
    assert multiset(next.ready) == multiset(sh.ready) + arrived;
    assert Listed(next) + HeldBag(cores) == (Listed(sh) + HeldBag(cores)) + arrived;
  }

  // ---------------------------------------------------------------------------------------------
  // Any step, any schedule

  lemma ApplyKeepsInv(s: System, l: Label)
    requires Inv(s) && AdmissibleLabel(l)
    ensures Inv(Apply(s, l)) && Apply(s, l).cfg == s.cfg && |Apply(s, l).makers| == |s.makers|
  {
    hide Inv, Admissible;
    match l
    case CoreTurn(i) => if i < |s.cores| { CoreTurnKeepsInv(s, i); }
    case TickTurn => TickTurnKeepsInv(s);
    case MakerTurn(j, d) =>
      if j < |s.makers| {
        match s.makers[j]
        case Waiting => TakePidStep(s, j, d);
        case HasPid(_) => AdmitStep(s, j, d);
      }
  }

  lemma {:induction false} EmptySlots(slots: seq<Option<nat>>)
    requires forall i :: 0 <= i < |slots| ==> slots[i] == None
    ensures Contents(slots) == multiset{}
  {
    if slots != [] {
      EmptySlots(slots[..|slots| - 1]);
    }
  }

  lemma BootPids(cfg: Config, makers: nat)
    ensures var s := Boot(cfg, makers); PidsOk(s.sh.procs, s.makers, s.sh.nextPid)
  {
  }

  lemma BootSleepers(cfg: Config, makers: nat)
    ensures var s := Boot(cfg, makers); SleepersOk(s.sh, s.ticker)
  {
  }

  lemma BootInv(cfg: Config, makers: nat)
    ensures Inv(Boot(cfg, makers))
  {
    hide PidsOk, SleepersOk, Contents;
    var s := Boot(cfg, makers);
    EmptySlots(s.sh.slots);
    EmptySlots(Hands(s.cores));
    BootPids(cfg, makers);
    BootSleepers(cfg, makers);
  }

  lemma {:induction false} ExecuteKeepsInv(s: System, schedule: seq<Label>)
    requires Inv(s) && AdmissibleSchedule(schedule)
    ensures Inv(Execute(s, schedule))
    ensures Execute(s, schedule).cfg == s.cfg && |Execute(s, schedule).makers| == |s.makers|
  {
    hide Inv;
    if schedule != [] {
      var n := |schedule| - 1;
      ExecuteKeepsInv(s, schedule[..n]);
      ApplyKeepsInv(Execute(s, schedule[..n]), schedule[n]);
    }
  }

  /** Whatever a schedule leads to. */
  ghost predicate IsReachable(s: System) {
    exists cfg: Config, makers: nat, schedule: seq<Label> ::
      AdmissibleSchedule(schedule) && s == Execute(Boot(cfg, makers), schedule)
  }

  lemma ReachableInv(s: System)
    requires IsReachable(s)
    ensures Inv(s)
  {
    hide Inv;
    var cfg: Config, makers: nat, schedule: seq<Label> :|
      AdmissibleSchedule(schedule) && s == Execute(Boot(cfg, makers), schedule);
    BootInv(cfg, makers);
    ExecuteKeepsInv(Boot(cfg, makers), schedule);
  }

  lemma {:induction false} ExecuteConcat(s: System, first: seq<Label>, more: seq<Label>)
    ensures Execute(s, first + more) == Execute(Execute(s, first), more)
  {
    hide Apply;
    if more == [] {
      assert first + more == first;
    } else {
      var n := |more| - 1;
      ExecuteConcat(s, first, more[..n]);
      assert (first + more)[..|first + more| - 1] == first + more[..n];
    }
  }

  lemma ExecuteSnoc(s: System, schedule: seq<Label>, l: Label)
    ensures Execute(s, schedule + [l]) == Apply(Execute(s, schedule), l)
  {
    hide Apply;
    assert (schedule + [l])[..|schedule|] == schedule;
  }

  /** Whatever follows a reachable state is reachable. */
  lemma StaysReachable(s: System, l: Label, schedule: seq<Label>)
    requires IsReachable(s) && AdmissibleLabel(l) && AdmissibleSchedule(schedule)
    ensures IsReachable(Execute(Apply(s, l), schedule))
  {
    hide Apply, Boot, AdmissibleLabel, Execute;
    var cfg: Config, makers: nat, before: seq<Label> :|
      AdmissibleSchedule(before) && s == Execute(Boot(cfg, makers), before);
    ExecuteSnoc(Boot(cfg, makers), before, l);
    ExecuteConcat(Boot(cfg, makers), before + [l], schedule);
    assert AdmissibleSchedule(before + [l] + schedule);
  }
}
