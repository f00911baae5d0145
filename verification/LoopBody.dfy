/** The body of the loop of `CPU::run` in one piece, for a core that nobody interrupts, and the proof
    that the steps of a core, one after the other, do the same. */
module LoopBody {
  import opened Options
  import opened ProcessSpec
  import opened SchedulerSpec
  import opened Threads

  /** The end of an iteration that released the core: take the next process, if there is one. */
  function TakeNext(i: nat, sh: Shared, c: Core): (Shared, Core) {
    var (q, popped) := PopReady(sh);
    if q.None? then (popped, c.(pc := Top)) else (MarkRunning(popped, q.value, i), Claimed(c, q.value, Top))
  }

  /** Whether, and to which list, a core gives up a process it has just called. */
  function GiveUp(cfg: Config, sh: Shared, c: Core, p: nat): (Shared, Core, bool) {
    var state := StateOf(sh.procs, p);
    var released := c.(current := None);
    if state == FINISHED then (MarkFinished(sh, p), released, true)
    else if state == WAITING then (MoveToSleeping(sh, p), released, true)
    else if !ShouldKeepRunning(cfg.policy, state, c.ticksOnCurrent, cfg.quantum) then
      (Preempt(sh, p, cfg.policy), released, true)
    else (sh, c, false)
  }

  /** What follows a call of `executeNext`. */
  function Decide(cfg: Config, i: nat, sh: Shared, c: Core, p: nat): (Shared, Core) {
    var (sh', c', released) := GiveUp(cfg, sh, c, p);
    if released then TakeNext(i, sh', c') else (sh', c'.(pc := Top))
  }

  function DelayOrCall(cfg: Config, i: nat, sh: Shared, c: Core, p: nat): (Shared, Core) {
    var (sh', c') := RunOrDelay(cfg, sh, c, p);
    if c.delay > 0 then (sh', c') else Decide(cfg, i, sh', c', p)
  }

  function Body(cfg: Config, i: nat, sh: Shared, c: Core): (Shared, Core) {
    if c.current.Some? then DelayOrCall(cfg, i, sh, c, c.current.value)
    else
      var (p, popped) := PopReady(sh);
      if p.None? then (popped, c)
      else DelayOrCall(cfg, i, MarkRunning(popped, p.value, i), Claimed(c, p.value, Gate), p.value)
  }

  lemma TakeNextAlone(cfg: Config, i: nat, sh: Shared, c: Core, n: nat)
    requires c.pc == Reacquire && n >= 2
    ensures Alone(cfg, i, sh, c, n) == TakeNext(i, sh, c)
  {
    hide MarkRunning;
    var (sh', c') := CoreStep(cfg, i, sh, c);
    assert Alone(cfg, i, sh, c, n) == Alone(cfg, i, sh', c', n - 1);
    if c'.pc.Reclaim? {
      var (sh'', c'') := CoreStep(cfg, i, sh', c');
      assert Alone(cfg, i, sh', c', n - 1) == Alone(cfg, i, sh'', c'', n - 2);
    }
  }

  lemma ReleaseAlone(cfg: Config, i: nat, sh: Shared, c: Core, p: nat, n: nat)
    requires c.current == Some(p) && c.pc in {Finishing, Parking, Preempting} && n >= 3
    ensures var released := c.(current := None);
            Alone(cfg, i, sh, c, n) ==
            match c.pc
            case Finishing => TakeNext(i, MarkFinished(sh, p), released)
            case Parking => TakeNext(i, MoveToSleeping(sh, p), released)
            case _ => TakeNext(i, Preempt(sh, p, cfg.policy), released)
  {
    hide Release, TakeNext, MarkFinished, MoveToSleeping, Preempt;
    var (sh', c') := CoreStep(cfg, i, sh, c);
    assert c' == c.(pc := Reacquire, current := None);
    assert Alone(cfg, i, sh, c, n) == Alone(cfg, i, sh', c', n - 1);
    TakeNextAlone(cfg, i, sh', c', n - 1);
    TakeNextIgnoresPc(i, sh', c', Finishing);
    TakeNextIgnoresPc(i, sh', c', Parking);
    TakeNextIgnoresPc(i, sh', c', Preempting);
  }

  lemma TakeNextIgnoresPc(i: nat, sh: Shared, c: Core, pc: CorePc)
    ensures TakeNext(i, sh, c.(pc := pc)) == TakeNext(i, sh, c)
  {
  }

  lemma DecideAlone(cfg: Config, i: nat, sh: Shared, c: Core, p: nat, n: nat)
    requires c.current == Some(p) && c.pc == CheckFinished && n >= 6
    ensures Alone(cfg, i, sh, c, n) == Decide(cfg, i, sh, c, p)
  {
    hide Release, TakeNext, MarkFinished, MoveToSleeping, Preempt;
    var state := StateOf(sh.procs, p);
    var (sh1, c1) := CoreStep(cfg, i, sh, c);
    assert sh1 == sh && Alone(cfg, i, sh, c, n) == Alone(cfg, i, sh, c1, n - 1);
    if state == FINISHED {
      ReleaseAlone(cfg, i, sh, c1, p, n - 1);
      TakeNextIgnoresPc(i, MarkFinished(sh, p), c.(current := None), Finishing);
    } else {
      var (sh2, c2) := CoreStep(cfg, i, sh, c1);
      assert sh2 == sh && Alone(cfg, i, sh, c1, n - 1) == Alone(cfg, i, sh, c2, n - 2);
      if state == WAITING {
        ReleaseAlone(cfg, i, sh, c2, p, n - 2);
        TakeNextIgnoresPc(i, MoveToSleeping(sh, p), c.(current := None), Parking);
      } else {
        var (sh3, c3) := CoreStep(cfg, i, sh, c2);
        assert sh3 == sh && Alone(cfg, i, sh, c2, n - 2) == Alone(cfg, i, sh, c3, n - 3);
        if c3.pc == Preempting {
          ReleaseAlone(cfg, i, sh, c3, p, n - 3);
          TakeNextIgnoresPc(i, Preempt(sh, p, cfg.policy), c.(current := None), Preempting);
        }
      }
    }
  }

  lemma DelayOrCallAlone(cfg: Config, i: nat, sh: Shared, c: Core, p: nat, n: nat)
    requires c.current == Some(p) && (c.pc == Gate || c.pc == Top) && n >= 6
    ensures var (sh', c') := CoreStep(cfg, i, sh, c);
            Alone(cfg, i, sh', c', n) == DelayOrCall(cfg, i, sh, c, p)
  {
    hide Decide, Run;
    var (sh', c') := CoreStep(cfg, i, sh, c);
    if c.delay == 0 {
      DecideAlone(cfg, i, sh', c', p, n);
    }
  }

  /** Left alone, a core at the top of its loop runs the loop body once. */
  lemma IterationIsBody(cfg: Config, i: nat, sh: Shared, c: Core)
    requires c.pc == Top
    ensures AloneIteration(cfg, i, sh, c) == Body(cfg, i, sh, c)
  {
    hide DelayOrCall, MarkRunning, RunOrDelay;
    if c.current.Some? {
      DelayOrCallAlone(cfg, i, sh, c, c.current.value, 8);
    } else if sh.ready != [] {
      var p := sh.ready[0];
      var popped := sh.(ready := sh.ready[1..]);
      var claim := c.(pc := Claim(p));
      assert CoreStep(cfg, i, sh, c) == (popped, claim);
      var gate := Claimed(c, p, Gate);
      var shown := MarkRunning(popped, p, i);
      assert CoreStep(cfg, i, popped, claim) == (shown, gate);
      assert Alone(cfg, i, popped, claim, 8) == Alone(cfg, i, shown, gate, 7);
      var (sh', c') := CoreStep(cfg, i, shown, gate);
      assert Alone(cfg, i, shown, gate, 7) == Alone(cfg, i, sh', c', 6);
      DelayOrCallAlone(cfg, i, shown, gate, p, 6);
    }
  }
}
