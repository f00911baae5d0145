/** What one iteration of the loop of a core achieves when nobody interrupts it. */
module Iterations {
  import opened Options
  import opened ProcessSpec
  import opened SchedulerSpec
  import opened Threads
  import opened LoopBody
  import opened Invariant
  import opened Reachable
  import opened Work

  /** The system after core `i` has run its loop body once. */
  function AfterIteration(s: System, i: nat): System
    requires i < |s.cores|
  {
    var (sh, c) := AloneIteration(s.cfg, i, s.sh, s.cores[i]);
    Moved(s, i, sh, c)
  }

  function TurnsOf(i: nat, n: nat): seq<Label> {
    if n == 0 then [] else [CoreTurn(i)] + TurnsOf(i, n - 1)
  }

  lemma {:induction false} TurnsAreAdmissible(i: nat, n: nat)
    ensures AdmissibleSchedule(TurnsOf(i, n))
  {
    if n > 0 {
      TurnsAreAdmissible(i, n - 1);
    }
  }

  lemma ExecuteFirst(s: System, l: Label, schedule: seq<Label>)
    ensures Execute(s, [l] + schedule) == Execute(Apply(s, l), schedule)
  {
    hide Apply;
    ExecuteConcat(s, [l], schedule);
    assert [l][..0] == [];
    assert Execute(s, [l]) == Apply(Execute(s, []), l);
  }

  /** The steps of a core that is left alone are a schedule of its turns. */
  lemma {:induction false} AloneIsSchedule(s: System, i: nat, n: nat) returns (turns: nat)
    requires i < |s.cores|
    ensures var (sh, c) := Alone(s.cfg, i, s.sh, s.cores[i], n);
            Moved(s, i, sh, c) == Execute(s, TurnsOf(i, turns))
    decreases n
  {
    hide CoreStep;
    if n == 0 || s.cores[i].pc == Top {
      turns := 0;
      assert s.cores[i := s.cores[i]] == s.cores;
    } else {
      var next := Apply(s, CoreTurn(i));
      var rest := AloneIsSchedule(next, i, n - 1);
      ExecuteFirst(s, CoreTurn(i), TurnsOf(i, rest));
      turns := rest + 1;
      var (sh, c) := Alone(next.cfg, i, next.sh, next.cores[i], n - 1);
      assert next.cores[i := c] == s.cores[i := c];
    }
  }

  lemma IterationIsReachable(s: System, i: nat)
    requires IsReachable(s) && i < |s.cores|
    ensures IsReachable(AfterIteration(s, i))
  {
    hide IsReachable, CoreStep, Alone;
    var next := Apply(s, CoreTurn(i));
    var turns := AloneIsSchedule(next, i, 8);
    TurnsAreAdmissible(i, turns);
    StaysReachable(s, CoreTurn(i), TurnsOf(i, turns));
    var (sh, c) := AloneIteration(s.cfg, i, s.sh, s.cores[i]);
    assert next.cores[i := c] == s.cores[i := c];
  }

  // ---------------------------------------------------------------------------------------------
  // The loop body

  /** The process that an iteration calls: the current one when no delay is pending, or the front of the
      queue when there is no current one. */
  function CalledIn(sh: Shared, c: Core): Option<nat> {
    if c.current.Some? then (if c.delay == 0 then c.current else None)
    else if sh.ready == [] then None else Some(sh.ready[0])
  }

  lemma DecideKeepsProcs(cfg: Config, i: nat, sh: Shared, c: Core, p: nat)
    ensures Decide(cfg, i, sh, c, p).0.procs == sh.procs
  {
    hide SlotOf;
  }

  lemma DelayOrCallCalls(cfg: Config, i: nat, sh: Shared, c: Core, p: nat)
    ensures DelayOrCall(cfg, i, sh, c, p).0.procs == if c.delay > 0 then sh.procs else Run(sh, p).procs
  {
    hide Decide, Run;
    var (sh', c') := RunOrDelay(cfg, sh, c, p);
    DecideKeepsProcs(cfg, i, sh', c', p);
  }

  lemma BodyCalls(cfg: Config, i: nat, sh: Shared, c: Core)
    ensures Body(cfg, i, sh, c).0.procs ==
            match CalledIn(sh, c)
            case None => sh.procs
            case Some(p) => if p < |sh.procs| then sh.procs[p := ExecuteNext(sh.procs[p])] else sh.procs
  {
    hide DelayOrCall, ExecuteNext;
    if c.current.Some? {
      DelayOrCallCalls(cfg, i, sh, c, c.current.value);
    } else if sh.ready != [] {
      var p := sh.ready[0];
      DelayOrCallCalls(cfg, i, MarkRunning(sh.(ready := sh.ready[1..]), p, i), Claimed(c, p, Gate), p);
    }
  }

  lemma BodyKeepsBusy(cfg: Config, i: nat, sh: Shared, c: Core)
    requires c.pc == Top
    ensures var (sh', c') := Body(cfg, i, sh, c);
            c'.pc == Top && (c'.current == None ==> sh'.ready == [])
  {
    hide SlotOf, ExecuteNext;
  }

  // ---------------------------------------------------------------------------------------------
  // The theorem

  /** One undisturbed iteration calls `executeNext` exactly once when the core has a process whose delay
      is over or finds one in the queue, and not at all otherwise: in an iteration that takes a process
      from the queue at its start the process already runs, one that is taken at the end has to wait for
      the next iteration. No core ends an iteration without a process while the queue has one. */
  lemma IterationMakesOneCall(s: System, i: nat)
    requires IsReachable(s) && i < |s.cores| && s.cores[i].pc == Top
    ensures IsReachable(AfterIteration(s, i))
    ensures var t, c := AfterIteration(s, i), s.cores[i];
            && t.cores[i].pc == Top
            && (t.cores[i].current == None ==> t.sh.ready == [])
            && (match CalledIn(s.sh, c)
                case None => t.sh.procs == s.sh.procs
                case Some(p) =>
                  && p < |s.sh.procs| && t.sh.procs == s.sh.procs[p := ExecuteNext(s.sh.procs[p])]
                  && Sum(FuelOf(t.sh.procs)) == Sum(FuelOf(s.sh.procs)) - 1)
  {
    hide IsReachable, Body, AloneIteration, ExecuteNext, FuelOf;
    ReachableInv(s);
    IterationIsReachable(s, i);
    IterationIsBody(s.cfg, i, s.sh, s.cores[i]);
    BodyCalls(s.cfg, i, s.sh, s.cores[i]);
    BodyKeepsBusy(s.cfg, i, s.sh, s.cores[i]);
    if CalledIn(s.sh, s.cores[i]).Some? {
      CalledIsGood(s, i);
      hide Inv;
      var p := CalledIn(s.sh, s.cores[i]).value;
      ExecuteNextStep(s.sh.procs[p]);
      OneFuel(s.sh.procs, p, ExecuteNext(s.sh.procs[p]));
    }
  }

  lemma CalledIsGood(s: System, i: nat)
    requires Inv(s) && i < |s.cores| && s.cores[i].pc == Top && CalledIn(s.sh, s.cores[i]).Some?
    ensures var p := CalledIn(s.sh, s.cores[i]).value;
            p < |s.sh.procs| && Good(s.sh.procs[p]) && Runnable(s.sh.procs[p])
  {
    hide SlotsOk, PidsOk, FinishedOk, SleepersOk, Good, Runnable, CoresOk;
    CoreIsOk(s, i);
    if s.cores[i].current.None? {
      assert RunnableRef(s.sh.procs, s.sh.ready[0]);
    }
  }
}
