/** How long a core keeps a process: the tick count of a slice is a function of the calls made in it,
    and round robin preempts after exactly one number of calls. */
module Slices {
  import opened Arithmetic
  import opened Options
  import opened ProcessSpec
  import opened SchedulerSpec
  import opened Threads
  import opened Places
  import opened Invariant
  import opened Reachable
  import opened Work

  // ---------------------------------------------------------------------------------------------
  // Ticks of a slice

  lemma {:induction false} CallTickClosedForm(n: nat, delay: nat)
    requires n > 0
    ensures CallTick(n, delay) == (n - 1) * (delay + 1) + 1
  {
    if n > 1 {
      CallTickClosedForm(n - 1, delay);
      assert (n - 1) * (delay + 1) == (n - 2) * (delay + 1) + (delay + 1);
    }
  }

  /** In tick counts: call number n is the first that reaches the quantum. */
  lemma FirstCallPastQuantum(n: nat, q: nat, d: nat)
    requires n > 0 && q > 0
    requires n > 1 ==> CallTick(n - 1, d) < q
    ensures CallTick(n, d) >= q <==> n == CeilDiv(q - 1, d + 1) + 1
    ensures CallTick(n, d) >= q ==> CallTick(n, d) <= q + d
  {
    CallTickClosedForm(n, d);
    CeilDivBounds(q - 1, d + 1);
    if n > 1 {
      CallTickClosedForm(n - 1, d);
      assert (n - 1) * (d + 1) == (n - 2) * (d + 1) + (d + 1);
    }
    hide CeilDiv, CallTick;
    if CallTick(n, d) >= q {
      CeilDivIsLeast(q - 1, d + 1, n - 1);
    }
  }

  /** RR preempts right after call number ceil((q-1)/(d+1)) + 1 of a slice, when the tick count of the
      slice is between q and q+d. */
  lemma SliceLength(s: System, i: nat)
    requires IsReachable(s) && i < |s.cores| && s.cores[i].pc == Preempting
    ensures var q, d := s.cfg.quantum, s.cfg.delaysPerExec;
            && q > 0
            && s.cores[i].slice == CeilDiv(q - 1, d + 1) + 1
            && q <= s.cores[i].ticksOnCurrent <= q + d
  {
    hide IsReachable, Inv, CoreOk, CeilDiv, CallTick;
    ReachableInv(s);
    CoreIsOk(s, i);
    PreemptingCore(s.cfg, s.sh.procs, s.cores[i]);
    FirstCallPastQuantum(s.cores[i].slice, s.cfg.quantum, s.cfg.delaysPerExec);
  }

  lemma PreemptingCore(cfg: Config, procs: seq<Proc>, c: Core)
    requires CoreOk(cfg, procs, c) && c.pc == Preempting
    ensures cfg.quantum > 0 && c.slice > 0
    ensures c.ticksOnCurrent == CallTick(c.slice, cfg.delaysPerExec) >= cfg.quantum
    ensures c.slice > 1 ==> CallTick(c.slice - 1, cfg.delaysPerExec) < cfg.quantum
  {
    hide CallTick;
  }

  /** Earlier calls of a slice do not exhaust the quantum, so the process keeps its core. */
  lemma NoEarlyPreemption(s: System, i: nat)
    requires IsReachable(s) && i < |s.cores| && s.cores[i].pc == CheckQuantum
    requires s.cfg.policy == RR && s.cfg.quantum > 0
    ensures var q, d := s.cfg.quantum, s.cfg.delaysPerExec;
            Apply(s, CoreTurn(i)).cores[i].pc == Preempting <==> s.cores[i].slice == CeilDiv(q - 1, d + 1) + 1
  {
    hide IsReachable, Inv, CeilDiv, CallTick, Apply;
    ReachableInv(s);
    QuantumCheck(s, i);
    FirstCallPastQuantum(s.cores[i].slice, s.cfg.quantum, s.cfg.delaysPerExec);
  }

  lemma QuantumCheck(s: System, i: nat)
    requires Inv(s) && i < |s.cores| && s.cores[i].pc == CheckQuantum
    requires s.cfg.policy == RR && s.cfg.quantum > 0
    ensures var n, d := s.cores[i].slice, s.cfg.delaysPerExec;
            && n > 0 && s.cores[i].ticksOnCurrent == CallTick(n, d)
            && (n > 1 ==> CallTick(n - 1, d) < s.cfg.quantum)
            && (Apply(s, CoreTurn(i)).cores[i].pc == Preempting <==> CallTick(n, d) >= s.cfg.quantum)
  {
    hide SleepersOk, PidsOk, ProcsOk, Partition, ReadyOk, FinishedOk, SlotsOk, CallTick;
    assert CoreOk(s.cfg, s.sh.procs, s.cores[i]);
  }

  /** The tick count and the pending delay of a core are those of `calls` calls and of the delays after
      them, the last of which may be going on. */
  predicate TicksOf(c: Core, calls: nat, d: nat) {
    if calls == 0 then c.ticksOnCurrent == 0 && c.delay == 0
    else c.delay <= d && c.ticksOnCurrent == (calls - 1) * (d + 1) + 1 + (d - c.delay)
  }

  lemma TicksOfCore(cfg: Config, procs: seq<Proc>, c: Core)
    requires CoreOk(cfg, procs, c) && c.current.Some?
    ensures TicksOf(c, c.slice, cfg.delaysPerExec)
  {
    if c.slice > 0 {
      CallTickClosedForm(c.slice, cfg.delaysPerExec);
    }
    hide CallTick;
  }

  /** In every reachable state, under either policy, the ticks a core has counted for its current
      process are exactly those of the calls of this slice and of the delays after them. Nothing of
      the process before is left in them. */
  lemma TicksAreOwnCalls(s: System, i: nat)
    requires IsReachable(s) && i < |s.cores| && s.cores[i].current.Some?
    ensures TicksOf(s.cores[i], s.cores[i].slice, s.cfg.delaysPerExec)
  {
    hide IsReachable, Inv, CoreOk, TicksOf;
    ReachableInv(s);
    CoreIsOk(s, i);
    TicksOfCore(s.cfg, s.sh.procs, s.cores[i]);
  }

  // ---------------------------------------------------------------------------------------------
  // Slices of a run

  function CurrentOf(s: System, i: nat): Option<nat> {
    if i < |s.cores| then s.cores[i].current else None
  }

  /** Core `i` keeps `p` all along a schedule. */
  ghost predicate Keeps(s: System, schedule: seq<Label>, i: nat, p: nat) {
    && CurrentOf(Execute(s, schedule), i) == Some(p)
    && (schedule != [] ==> Keeps(s, schedule[..|schedule| - 1], i, p))
  }

  lemma SliceOfCoreStep(cfg: Config, i: nat, sh: Shared, c: Core)
    requires CoreOk(cfg, sh.procs, c) && c.current.Some?
    ensures var c' := CoreStep(cfg, i, sh, c).1;
            c'.current == c.current ==> c'.slice == c.slice + if Calls(c) then 1 else 0
  {
    hide SlotOf, ExecuteNext, SliceAfterCall, SliceBetweenCalls;
  }

  lemma SliceStep(s: System, l: Label, i: nat, p: nat)
    requires Inv(s) && CurrentOf(s, i) == Some(p) == CurrentOf(Apply(s, l), i)
    ensures i < |s.cores| && i < |Apply(s, l).cores|
    ensures Apply(s, l).cores[i].slice == s.cores[i].slice + CallOf(s, l, p)
  {
    hide Inv, CoreStep, TickStep, MakerStep, CoreOk, Held;
    if l == CoreTurn(i) {
      CoreIsOk(s, i);
      SliceOfCoreStep(s.cfg, i, s.sh, s.cores[i]);
    } else if l.CoreTurn? && l.i < |s.cores| {
      CurrentIsHeld(s, i);
      CurrentIsHeld(s, l.i);
      OnlyHolder(s, i, l.i, p);
    }
  }

  lemma {:induction false} SliceCountsCalls(s: System, schedule: seq<Label>, i: nat, p: nat)
    requires Inv(s) && AdmissibleSchedule(schedule) && Keeps(s, schedule, i, p)
    ensures var t := Execute(s, schedule);
            && i < |s.cores| && i < |t.cores| && s.cores[i].current == t.cores[i].current == Some(p)
            && t.cores[i].slice == s.cores[i].slice + CallsTo(s, schedule, p)
  {
    hide Inv, Apply;
    if schedule != [] {
      var n := |schedule| - 1;
      SliceCountsCalls(s, schedule[..n], i, p);
      ExecuteKeepsInv(s, schedule[..n]);
      SliceStep(Execute(s, schedule[..n]), schedule[n], i, p);
    }
  }

  lemma ClaimIsFresh(s: System, i: nat, p: nat)
    requires i < |s.cores| && (s.cores[i].pc == Claim(p) || s.cores[i].pc == Reclaim(p))
    ensures CurrentOf(Apply(s, CoreTurn(i)), i) == Some(p) && Apply(s, CoreTurn(i)).cores[i].slice == 0
  {
    hide MarkRunning;
  }

  lemma CallsOfRun(s: System, schedule: seq<Label>, i: nat, p: nat)
    requires IsReachable(s) && i < |s.cores| && (s.cores[i].pc == Claim(p) || s.cores[i].pc == Reclaim(p))
    requires AdmissibleSchedule(schedule) && Keeps(Apply(s, CoreTurn(i)), schedule, i, p)
    ensures var claimed := Apply(s, CoreTurn(i));
            var t := Execute(claimed, schedule);
            && IsReachable(t) && t.cfg == s.cfg
            && i < |t.cores| && t.cores[i].current == Some(p) && t.cores[i].slice == CallsTo(claimed, schedule, p)
  {
    hide Inv, Apply, IsReachable, Execute, Keeps, CallsTo;
    var claimed := Apply(s, CoreTurn(i));
    ReachableInv(s);
    ApplyKeepsInv(s, CoreTurn(i));
    ClaimIsFresh(s, i, p);
    SliceCountsCalls(claimed, schedule, i, p);
    ExecuteKeepsInv(claimed, schedule);
    StaysReachable(s, CoreTurn(i), schedule);
  }

  /** From its claim on, as long as a core keeps a process, its ticks and pending delay are determined
      by the number of calls of that process, whatever the core did before and whatever the others do.
      RR preempts it right after call number ceil((q-1)/(d+1)) + 1, and at no other. */
  lemma SliceOfRun(s: System, schedule: seq<Label>, i: nat, p: nat)
    requires IsReachable(s) && i < |s.cores| && (s.cores[i].pc == Claim(p) || s.cores[i].pc == Reclaim(p))
    requires AdmissibleSchedule(schedule) && Keeps(Apply(s, CoreTurn(i)), schedule, i, p)
    ensures var claimed := Apply(s, CoreTurn(i));
            var t, calls := Execute(claimed, schedule), CallsTo(claimed, schedule, p);
            var q, d := s.cfg.quantum, s.cfg.delaysPerExec;
            && i < |t.cores|
            && TicksOf(t.cores[i], calls, d)
            && (t.cores[i].pc == Preempting ==> q > 0 && calls == CeilDiv(q - 1, d + 1) + 1)
  {
    hide Apply, CeilDiv, IsReachable, Execute, TicksOf, Keeps, CallsTo;
    var t := Execute(Apply(s, CoreTurn(i)), schedule);
    CallsOfRun(s, schedule, i, p);
    TicksAreOwnCalls(t, i);
    if t.cores[i].pc == Preempting {
      SliceLength(t, i);
    }
  }
}
