/** The threads as step machines. Each step is one lock region, one call into a process, or one read
    of a process state; between two steps of a thread the others may do anything. */
module Threads {
  import opened Instructions
  import opened Options
  import opened ProcessSpec
  import opened SchedulerSpec

  // ---------------------------------------------------------------------------------------------
  // Cores: where a core stands in the loop of `CPU::run`

  datatype CorePc =
    | Top                  // about to begin an iteration
    | Claim(popped: nat)   // has popped a process that it has not shown in its slot yet
    | Gate                 // has just claimed its process and will run it in this iteration
    | CheckFinished        // has called executeNext
    | CheckWaiting
    | CheckQuantum
    | Finishing
    | Parking
    | Preempting
    | Reacquire            // has released its process
    | Reclaim(popped: nat) // like Claim, at the end of the iteration

  /** `slice` is a history variable: how often the core has called its process since claiming it. */
  datatype Core = Core(pc: CorePc, current: Option<nat>, ticksOnCurrent: int, delay: nat, slice: nat)

  const IDLE_CORE := Core(Top, None, 0, 0, 0)

  /** The process in the hands of a core: its current one, or the one it has just popped. */
  function Held(c: Core): Option<nat> {
    if c.pc.Claim? || c.pc.Reclaim? then Some(c.pc.popped) else c.current
  }

  function RunOrDelay(cfg: Config, sh: Shared, c: Core, p: nat): (Shared, Core) {
    if c.delay > 0 then
      (sh, c.(pc := Top, delay := c.delay - 1, ticksOnCurrent := c.ticksOnCurrent + 1))
    else
      (Run(sh, p), c.(pc := CheckFinished, delay := cfg.delaysPerExec,
                      ticksOnCurrent := c.ticksOnCurrent + 1, slice := c.slice + 1))
  }

  function Claimed(c: Core, p: nat, pc: CorePc): Core {
    Core(pc, Some(p), 0, 0, 0)
  }

  function CoreStep(cfg: Config, i: nat, sh: Shared, c: Core): (Shared, Core) {
    match c.pc
    case Claim(p) => (MarkRunning(sh, p, i), Claimed(c, p, Gate))
    case Reclaim(p) => (MarkRunning(sh, p, i), Claimed(c, p, Top))
    case Reacquire =>
      var (p, popped) := PopReady(sh);
      (popped, c.(pc := if p.Some? then Reclaim(p.value) else Top))
    case _ =>
      if c.current.None? then
        var (p, popped) := PopReady(sh);
        (popped, c.(pc := if p.Some? then Claim(p.value) else Top))
      else
        BusyStep(cfg, sh, c, c.current.value)
  }

  /** The steps of a core that has a current process. */
  function BusyStep(cfg: Config, sh: Shared, c: Core, p: nat): (Shared, Core) {
    var state := StateOf(sh.procs, p);
    match c.pc
    case CheckFinished => (sh, c.(pc := if state == FINISHED then Finishing else CheckWaiting))
    case CheckWaiting => (sh, c.(pc := if state == WAITING then Parking else CheckQuantum))
    case CheckQuantum =>
      var keep := ShouldKeepRunning(cfg.policy, state, c.ticksOnCurrent, cfg.quantum);
      (sh, c.(pc := if keep then Top else Preempting))
    case Finishing => (MarkFinished(sh, p), c.(pc := Reacquire, current := None))
    case Parking => (MoveToSleeping(sh, p), c.(pc := Reacquire, current := None))
    case Preempting => (Preempt(sh, p, cfg.policy), c.(pc := Reacquire, current := None))
    case _ => RunOrDelay(cfg, sh, c, p)
  }

  /** Up to `n` steps of a core with nobody else running, until it is back at the top of its loop. */
  function Alone(cfg: Config, i: nat, sh: Shared, c: Core, n: nat): (Shared, Core)
    decreases n
  {
    if n == 0 || c.pc == Top then (sh, c)
    else
      var (sh', c') := CoreStep(cfg, i, sh, c);
      Alone(cfg, i, sh', c', n - 1)
  }

  /** One iteration of the loop with nobody else running. */
  function AloneIteration(cfg: Config, i: nat, sh: Shared, c: Core): (Shared, Core) {
    var (sh', c') := CoreStep(cfg, i, sh, c);
    Alone(cfg, i, sh', c', 8)
  }

  /** The next step of this core is a call of `executeNext`. */
  predicate Calls(c: Core) {
    (c.pc == Top || c.pc == Gate) && c.current.Some? && c.delay == 0
  }

  // ---------------------------------------------------------------------------------------------
  // The tick thread: where it stands in a tick round

  /** `before` is a history variable: the sleepers as they were at the snapshot. */
  datatype Ticker =
    | Resting
    | Ticking(sleepers: seq<nat>, before: seq<Proc>, k: nat)
    | Collecting(sleepers: seq<nat>, before: seq<Proc>, k: nat, woken: seq<nat>)
    | Rebuilding(sleepers: seq<nat>, before: seq<Proc>, woken: seq<nat>)

  function Snapshot(procs: seq<Proc>, refs: seq<nat>): seq<Proc> {
    if refs == [] then []
    else
      var last := refs[|refs| - 1];
      Snapshot(procs, refs[..|refs| - 1]) +
      [if last < |procs| then procs[last] else NewProc(0, "", 0, [])]
  }

  function TickStep(sh: Shared, t: Ticker): (Shared, Ticker) {
    match t
    case Resting =>
      (sh.(tick := sh.tick + 1), Ticking(sh.sleeping, Snapshot(sh.procs, sh.sleeping), 0))
    case Ticking(sleepers, before, k) =>
      if k < |sleepers| then (Tick(sh, sleepers[k]), Ticking(sleepers, before, k + 1))
      else (sh, Collecting(sleepers, before, 0, []))
    case Collecting(sleepers, before, k, woken) =>
      if k < |sleepers| then
        var woke := if StateOf(sh.procs, sleepers[k]) != WAITING then [sleepers[k]] else [];
        (sh, Collecting(sleepers, before, k + 1, woken + woke))
      else (sh, Rebuilding(sleepers, before, WakeOrder(sh.procs, woken)))
    case Rebuilding(_, _, woken) => (Rebuild(sh, woken), Resting)
  }

  // ---------------------------------------------------------------------------------------------
  // The threads that create processes: the generator and the console

  datatype Maker = Waiting | HasPid(pid: int)

  /** What the factory and the clock answer. */
  datatype Draft = Draft(name: string, program: seq<Instruction>, createdAt: int)

  /** The factory makes non-empty programs whose length fits an int. */
  predicate Admissible(d: Draft) {
    WellFormed(d.program) && 0 < |Unroll(d.program)| <= INT_MAX
  }

  function Build(pid: int, d: Draft): Proc {
    NewProc(pid, d.name, d.createdAt, Unroll(d.program))
  }

  /** A creator takes a PID under the lock, has its process built where nobody else can see it, and
      puts it into the queue under the lock. */
  function MakerStep(sh: Shared, m: Maker, d: Draft): (Shared, Maker) {
    match m
    case Waiting => (TakePid(sh), HasPid(sh.nextPid))
    case HasPid(pid) => (Admit(sh, Build(pid, d)), Waiting)
  }

  // ---------------------------------------------------------------------------------------------
  // The whole system and its runs

  datatype System = System(cfg: Config, sh: Shared, cores: seq<Core>, ticker: Ticker, makers: seq<Maker>)

  datatype Label = CoreTurn(i: nat) | TickTurn | MakerTurn(j: nat, draft: Draft)

  predicate AdmissibleLabel(l: Label) {
    l.MakerTurn? ==> Admissible(l.draft)
  }

  function Apply(s: System, l: Label): System {
    match l
    case CoreTurn(i) =>
      if i < |s.cores| then
        var (sh, c) := CoreStep(s.cfg, i, s.sh, s.cores[i]);
        s.(sh := sh, cores := s.cores[i := c])
      else s
    case TickTurn =>
      var (sh, t) := TickStep(s.sh, s.ticker);
      s.(sh := sh, ticker := t)
    case MakerTurn(j, draft) =>
      if j < |s.makers| then
        var (sh, m) := MakerStep(s.sh, s.makers[j], draft);
        s.(sh := sh, makers := s.makers[j := m])
      else s
  }

  function Boot(cfg: Config, makers: nat): System {
    System(cfg,
           Shared([], [], seq(cfg.numCpu, _ => None), [], [], 0, 1, 0, []),
           seq(cfg.numCpu, _ => IDLE_CORE), Resting, seq(makers, _ => Waiting))
  }

  /** The state after a schedule: the order in which the threads take their steps. */
  function Execute(s: System, schedule: seq<Label>): System {
    if schedule == [] then s
    else Apply(Execute(s, schedule[..|schedule| - 1]), schedule[|schedule| - 1])
  }

  predicate AdmissibleSchedule(schedule: seq<Label>) {
    forall k :: 0 <= k < |schedule| ==> AdmissibleLabel(schedule[k])
  }
}
