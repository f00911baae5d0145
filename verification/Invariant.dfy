/** What holds in every reachable state of the system, whatever the schedule. */
module Invariant {
  import opened Options
  import opened ProcessSpec
  import opened SchedulerSpec
  import opened Threads
  import opened Places

  // ---------------------------------------------------------------------------------------------
  // Slots

  /** Slot i shows the current process of core i, and the count of used cores is right. */
  ghost predicate SlotsOk(sh: Shared, cores: seq<Core>) {
    && |sh.slots| == |cores|
    && (forall i :: 0 <= i < |cores| ==> sh.slots[i] == cores[i].current)
    && sh.coresUsed == |Contents(sh.slots)|
  }

  // ---------------------------------------------------------------------------------------------
  // Slices

  /** The tick count of a slice right after its n-th call, when every call but the last was followed
      by its full delay. */
  function CallTick(n: nat, delay: nat): nat {
    if n <= 1 then n else CallTick(n - 1, delay) + delay + 1
  }

  predicate WithinQuantum(cfg: Config, ticks: int) {
    cfg.policy == RR && cfg.quantum > 0 ==> ticks < cfg.quantum
  }

  predicate SliceBetweenCalls(cfg: Config, c: Core) {
    if c.slice == 0 then c.ticksOnCurrent == 0 && c.delay == 0
    else
      && c.delay <= cfg.delaysPerExec
      && c.ticksOnCurrent == CallTick(c.slice, cfg.delaysPerExec) + (cfg.delaysPerExec - c.delay)
      && WithinQuantum(cfg, CallTick(c.slice, cfg.delaysPerExec))
  }

  predicate SliceAfterCall(cfg: Config, c: Core) {
    && c.slice > 0
    && c.delay == cfg.delaysPerExec
    && c.ticksOnCurrent == CallTick(c.slice, cfg.delaysPerExec)
    && (c.slice > 1 ==> WithinQuantum(cfg, CallTick(c.slice - 1, cfg.delaysPerExec)))
  }

  // ---------------------------------------------------------------------------------------------
  // Cores

  predicate RunnableRef(procs: seq<Proc>, p: nat) {
    p < |procs| && Runnable(procs[p])
  }

  /** A core that has just called its process, somewhere on the way to its decision. */
  predicate AfterCall(cfg: Config, procs: seq<Proc>, c: Core) {
    && c.current.Some? && c.current.value < |procs| && SliceAfterCall(cfg, c)
    && var p := procs[c.current.value];
       p.state != READY && (p.state == WAITING ==> p.sleepRemaining == LastSleep(p))
  }

  predicate CoreOk(cfg: Config, procs: seq<Proc>, c: Core) {
    match c.pc
    case Top => c.current.None? || (RunnableRef(procs, c.current.value) && SliceBetweenCalls(cfg, c))
    case Gate => c.current.Some? && RunnableRef(procs, c.current.value) && SliceBetweenCalls(cfg, c)
    case Claim(p) => c.current.None? && RunnableRef(procs, p)
    case Reclaim(p) => c.current.None? && RunnableRef(procs, p)
    case Reacquire => c.current.None?
    case CheckFinished => AfterCall(cfg, procs, c)
    case CheckWaiting => AfterCall(cfg, procs, c) && procs[c.current.value].state != FINISHED
    case CheckQuantum => AfterCall(cfg, procs, c) && procs[c.current.value].state == RUNNING
    case Finishing => AfterCall(cfg, procs, c) && procs[c.current.value].state == FINISHED
    case Parking => AfterCall(cfg, procs, c) && procs[c.current.value].state == WAITING
    case Preempting =>
      && AfterCall(cfg, procs, c) && procs[c.current.value].state == RUNNING
      && cfg.policy == RR && cfg.quantum > 0 && c.ticksOnCurrent >= cfg.quantum
  }

  predicate CoresOk(cfg: Config, procs: seq<Proc>, cores: seq<Core>) {
    forall i :: 0 <= i < |cores| ==> CoreOk(cfg, procs, cores[i])
  }

  // ---------------------------------------------------------------------------------------------
  // Processes and lists

  ghost predicate ProcsOk(procs: seq<Proc>) {
    forall p :: 0 <= p < |procs| ==> Good(procs[p])
  }

  ghost predicate ReadyOk(procs: seq<Proc>, ready: seq<nat>) {
    forall p :: p in ready ==> RunnableRef(procs, p)
  }

  ghost predicate FinishedOk(procs: seq<Proc>, finished: seq<nat>) {
    forall p :: p in finished ==> p < |procs| && procs[p].state == FINISHED
  }

  // ---------------------------------------------------------------------------------------------
  // Sleepers and the tick round

  /** After `rounds` rounds, a sleeper has slept one tick for each round since it was parked. */
  predicate Sleeps(p: Proc, parkedAt: nat, rounds: int) {
    && p.state == WAITING
    && parkedAt <= rounds
    && p.sleepRemaining + (rounds - parkedAt) == LastSleep(p)
  }

  function SnapshotOf(t: Ticker): seq<nat> {
    if t.Resting? then [] else t.sleepers
  }

  function BeforeOf(t: Ticker): seq<Proc> {
    if t.Resting? then [] else t.before
  }

  /** How many of the snapshot have been ticked. */
  function Ticked(t: Ticker): nat {
    match t
    case Resting => 0
    case Ticking(_, _, k) => k
    case Collecting(sleepers, _, _, _) => |sleepers|
    case Rebuilding(sleepers, _, _) => |sleepers|
  }

  /** The sleepers among the first `k` of a snapshot whose last tick of sleep this round is. */
  function Due(sleepers: seq<nat>, before: seq<Proc>, k: nat): seq<nat>
    requires k <= |sleepers| == |before|
  {
    if k == 0 then []
    else if before[k - 1].sleepRemaining == 1 then Due(sleepers, before, k - 1) + [sleepers[k - 1]]
    else Due(sleepers, before, k - 1)
  }

  ghost predicate SortedForWaking(procs: seq<Proc>, woken: seq<nat>) {
    forall i, j :: 0 <= i < j < |woken| ==> WakesBeforeRef(procs, woken[i], woken[j])
  }

  /** A member of the snapshot is as it was then, but for its tick. */
  ghost predicate InRound(sh: Shared, p: nat, before: Proc, ticked: bool) {
    && p < |sh.procs| == |sh.parkedAt|
    && sh.tick > 0
    && Good(before) && Sleeps(before, sh.parkedAt[p], sh.tick - 1)
    && sh.procs[p] == if ticked then TickSleep(before) else before
  }

  ghost predicate NotInRound(sh: Shared, p: nat) {
    p < |sh.procs| == |sh.parkedAt| && Sleeps(sh.procs[p], sh.parkedAt[p], sh.tick)
  }

  /** What the tick thread has worked out so far. */
  ghost predicate RoundOk(procs: seq<Proc>, t: Ticker) {
    match t
    case Resting => true
    case Ticking(sleepers, before, k) => k <= |sleepers| == |before|
    case Collecting(sleepers, before, k, woken) =>
      k <= |sleepers| == |before| && woken == Due(sleepers, before, k)
    case Rebuilding(sleepers, before, woken) =>
      && |sleepers| == |before|
      && multiset(woken) == multiset(Due(sleepers, before, |sleepers|))
      && SortedForWaking(procs, woken)
  }

  /** The snapshot is still the front of the sleepers; those behind it were parked since. */
  ghost predicate SleepersOk(sh: Shared, t: Ticker) {
    var sleepers := SnapshotOf(t);
    && RoundOk(sh.procs, t)
    && |sleepers| <= |sh.sleeping| && sleepers == sh.sleeping[..|sleepers|]
    && |sleepers| == |BeforeOf(t)|
    && (forall j :: 0 <= j < |sleepers| ==> InRound(sh, sleepers[j], BeforeOf(t)[j], j < Ticked(t)))
    && (forall j :: |sleepers| <= j < |sh.sleeping| ==> NotInRound(sh, sh.sleeping[j]))
  }

  // ---------------------------------------------------------------------------------------------
  // Process ids

  function PendingPid(m: Maker): Option<int> {
    match m
    case Waiting => None
    case HasPid(pid) => Some(pid)
  }

  ghost predicate PidsOk(procs: seq<Proc>, makers: seq<Maker>, nextPid: int) {
    && (forall p :: 0 <= p < |procs| ==> procs[p].pid < nextPid)
    && (forall p, q :: 0 <= p < q < |procs| ==> procs[p].pid != procs[q].pid)
    && (forall j :: 0 <= j < |makers| && PendingPid(makers[j]).Some? ==> PendingPid(makers[j]).value < nextPid)
    && (forall j, p :: 0 <= j < |makers| && 0 <= p < |procs| ==> PendingPid(makers[j]) != Some(procs[p].pid))
    && (forall j, k :: 0 <= j < k < |makers| && PendingPid(makers[j]).Some? ==> PendingPid(makers[j]) != PendingPid(makers[k]))
  }

  // ---------------------------------------------------------------------------------------------
  // Together

  ghost predicate Inv(s: System) {
    && |s.cores| == s.cfg.numCpu
    && |s.sh.parkedAt| == |s.sh.procs|
    && SlotsOk(s.sh, s.cores)
    && Partition(s.sh, s.cores)
    && ProcsOk(s.sh.procs)
    && ReadyOk(s.sh.procs, s.sh.ready)
    && FinishedOk(s.sh.procs, s.sh.finished)
    && CoresOk(s.cfg, s.sh.procs, s.cores)
    && SleepersOk(s.sh, s.ticker)
    && PidsOk(s.sh.procs, s.makers, s.sh.nextPid)
  }

  // ---------------------------------------------------------------------------------------------
  // Frames: what a part of the invariant does not look at

  /** The state after core i has moved. */
  function Moved(s: System, i: nat, sh: Shared, c: Core): System
    requires i < |s.cores|
  {
    s.(sh := sh, cores := s.cores[i := c])
  }

  lemma SleepersFrame(sh: Shared, next: Shared, t: Ticker)
    requires SleepersOk(sh, t)
    requires next.sleeping == sh.sleeping && next.tick == sh.tick
    requires |next.procs| == |next.parkedAt| >= |sh.procs| == |sh.parkedAt|
    requires forall p :: p in sh.sleeping && p < |sh.procs| ==> next.procs[p] == sh.procs[p] && next.parkedAt[p] == sh.parkedAt[p]
    ensures SleepersOk(next, t)
  {
    var sleepers := SnapshotOf(t);
    forall j | 0 <= j < |sleepers| ensures InRound(next, sleepers[j], BeforeOf(t)[j], j < Ticked(t)) {
      assert InRound(sh, sleepers[j], BeforeOf(t)[j], j < Ticked(t));
      assert sleepers[j] == sh.sleeping[j];
    }
    forall j | |sleepers| <= j < |sh.sleeping| ensures NotInRound(next, next.sleeping[j]) {
      assert NotInRound(sh, sh.sleeping[j]);
    }
    if t.Rebuilding? {
      SortedFrame(sh.procs, next.procs, sh.sleeping, t);
    }
  }

  lemma DueAreSleepers(sleepers: seq<nat>, before: seq<Proc>, k: nat)
    requires k <= |sleepers| == |before|
    ensures forall p :: p in Due(sleepers, before, k) ==> p in sleepers
  {
  }

  lemma WokenAreSleepers(sleepers: seq<nat>, before: seq<Proc>, woken: seq<nat>)
    requires |sleepers| == |before| && multiset(woken) == multiset(Due(sleepers, before, |sleepers|))
    ensures forall p :: p in woken ==> p in sleepers
  {
    DueAreSleepers(sleepers, before, |sleepers|);
    forall p | p in woken ensures p in sleepers {
      assert p in multiset(woken);
      assert p in multiset(Due(sleepers, before, |sleepers|));
    }
  }

  lemma SortedFrame(procs: seq<Proc>, next: seq<Proc>, sleeping: seq<nat>, t: Ticker)
    requires t.Rebuilding? && RoundOk(procs, t)
    requires |t.sleepers| <= |sleeping| && t.sleepers == sleeping[..|t.sleepers|]
    requires |next| >= |procs|
    requires forall p :: p in sleeping && p < |procs| ==> next[p] == procs[p]
    ensures RoundOk(next, t)
  {
    WokenAreSleepers(t.sleepers, t.before, t.woken);
    assert forall p :: p in t.sleepers ==> p in sleeping;
    forall i, j | 0 <= i < j < |t.woken| ensures WakesBeforeRef(next, t.woken[i], t.woken[j]) {
      assert WakesBeforeRef(procs, t.woken[i], t.woken[j]);
      assert t.woken[i] in sleeping && t.woken[j] in sleeping;
    }
  }

  lemma PidsFrame(procs: seq<Proc>, p: nat, q: Proc, makers: seq<Maker>, nextPid: int)
    requires PidsOk(procs, makers, nextPid) && p < |procs| && q.pid == procs[p].pid
    ensures PidsOk(procs[p := q], makers, nextPid)
  {
    var next := procs[p := q];
    assert forall r :: 0 <= r < |procs| ==> next[r].pid == procs[r].pid;
  }

  lemma CoresFrame(cfg: Config, procs: seq<Proc>, next: seq<Proc>, cores: seq<Core>, i: nat)
    requires CoresOk(cfg, procs, cores) && |next| >= |procs|
    requires forall j :: 0 <= j < |cores| && j != i && Held(cores[j]).Some? && Held(cores[j]).value < |procs| ==>
                         next[Held(cores[j]).value] == procs[Held(cores[j]).value]
    ensures forall j :: 0 <= j < |cores| && j != i ==> CoreOk(cfg, next, cores[j])
  {
    forall j | 0 <= j < |cores| && j != i ensures CoreOk(cfg, next, cores[j]) {
      assert CoreOk(cfg, procs, cores[j]);
    }
  }

  lemma CoresMove(cfg: Config, procs: seq<Proc>, cores: seq<Core>, i: nat, c: Core)
    requires i < |cores| && CoreOk(cfg, procs, c)
    requires forall j :: 0 <= j < |cores| && j != i ==> CoreOk(cfg, procs, cores[j])
    ensures CoresOk(cfg, procs, cores[i := c])
  {
    hide CoreOk;
  }

  lemma SlotsMove(sh: Shared, next: Shared, cores: seq<Core>, i: nat, c: Core)
    requires SlotsOk(sh, cores) && i < |cores|
    requires next.slots == sh.slots[i := c.current]
    requires next.coresUsed == sh.coresUsed + |Bag(c.current)| - |Bag(sh.slots[i])|
    ensures SlotsOk(next, cores[i := c])
  {
    ContentsUpdate(sh.slots, i, c.current);
    assert |Contents(next.slots)| + |Bag(sh.slots[i])| == |Contents(sh.slots) + Bag(c.current)|;
  }

  lemma CurrentIsHeld(s: System, i: nat)
    requires Inv(s) && i < |s.cores|
    ensures s.cores[i].current.Some? ==> Held(s.cores[i]) == s.cores[i].current
  {
    hide SleepersOk, PidsOk, ProcsOk, Partition, ReadyOk, FinishedOk, SlotsOk;
    assert CoreOk(s.cfg, s.sh.procs, s.cores[i]);
  }

  lemma CoreIsOk(s: System, i: nat)
    requires Inv(s) && i < |s.cores|
    ensures CoreOk(s.cfg, s.sh.procs, s.cores[i])
  {
    hide SlotsOk, PidsOk, ReadyOk, FinishedOk, Partition, ProcsOk, SleepersOk, CoreOk;
  }

  lemma OnlyHolder(s: System, i: nat, j: nat, p: nat)
    requires Inv(s) && i < |s.cores| && j < |s.cores| && i != j && Held(s.cores[i]) == Some(p)
    ensures Held(s.cores[j]) != Some(p)
  {
    hide SlotsOk, PidsOk, ReadyOk, FinishedOk, CoresOk, SleepersOk, ProcsOk, Partition;
    HeldExclusively(s.sh, s.cores, i, p);
  }

  // ---------------------------------------------------------------------------------------------
  // Steps of a core

  /** A core that moves without touching anything shared. */
  lemma LocalMove(s: System, i: nat, c: Core)
    requires Inv(s) && i < |s.cores|
    requires Held(c) == Held(s.cores[i]) && c.current == s.cores[i].current
    requires CoreOk(s.cfg, s.sh.procs, c)
    ensures Inv(Moved(s, i, s.sh, c))
  {
    hide PidsOk, SleepersOk, ProcsOk, ReadyOk, FinishedOk, CoreOk, Held, Partition;
    assert s.sh.slots[i := c.current] == s.sh.slots;
    SlotsMove(s.sh, s.sh, s.cores, i, c);
    PartitionMove(s.sh, s.sh, s.cores, i, c);
    CoresMove(s.cfg, s.sh.procs, s.cores, i, c);
  }

  lemma PopMove(s: System, i: nat, c: Core)
    requires Inv(s) && i < |s.cores| && s.sh.ready != []
    requires Held(s.cores[i]) == s.cores[i].current == c.current == None
    requires c.pc == Claim(s.sh.ready[0]) || c.pc == Reclaim(s.sh.ready[0])
    ensures Inv(Moved(s, i, s.sh.(ready := s.sh.ready[1..]), c))
  {
    hide PidsOk, SleepersOk, ProcsOk, Partition, FinishedOk, SlotsOk;
    var sh := s.sh.(ready := s.sh.ready[1..]);
    assert RunnableRef(s.sh.procs, s.sh.ready[0]);
    assert CoreOk(s.cfg, s.sh.procs, c);
    SleepersFrame(s.sh, sh, s.ticker);
    assert Partition(sh, s.cores[i := c]) by {
      assert s.sh.ready == [s.sh.ready[0]] + sh.ready;
      assert multiset(s.sh.ready) == multiset{s.sh.ready[0]} + multiset(sh.ready);
      PartitionMove(s.sh, sh, s.cores, i, c);
    }
    KeepSlots(s, sh, i, c);
    CoresMove(s.cfg, s.sh.procs, s.cores, i, c);
  }

  lemma KeepSlots(s: System, sh: Shared, i: nat, c: Core)
    requires Inv(s) && i < |s.cores| && c.current == s.cores[i].current
    requires sh.slots == s.sh.slots && sh.coresUsed == s.sh.coresUsed
    ensures SlotsOk(sh, s.cores[i := c])
  {
    hide PidsOk, SleepersOk, ProcsOk, Partition, FinishedOk, ReadyOk, CoreOk;
    assert s.sh.slots[i := c.current] == s.sh.slots;
    SlotsMove(s.sh, sh, s.cores, i, c);
  }

  lemma ClaimMove(s: System, i: nat, p: nat, pc: CorePc)
    requires Inv(s) && i < |s.cores| && (s.cores[i].pc == Claim(p) || s.cores[i].pc == Reclaim(p))
    requires pc == Gate || pc == Top
    ensures Inv(Moved(s, i, MarkRunning(s.sh, p, i), Claimed(s.cores[i], p, pc)))
  {
    hide PidsOk, SleepersOk, ProcsOk, Partition, FinishedOk, ReadyOk;
    var c := Claimed(s.cores[i], p, pc);
    var sh := MarkRunning(s.sh, p, i);
    assert CoreOk(s.cfg, s.sh.procs, s.cores[i]);
    assert CoreOk(s.cfg, s.sh.procs, c);
    assert SlotsOk(sh, s.cores[i := c]) by {
      hide CoresOk, CoreOk;
      SlotsMove(s.sh, sh, s.cores, i, c);
    }
    hide SlotsOk;
    PartitionMove(s.sh, sh, s.cores, i, c);
    SleepersFrame(s.sh, sh, s.ticker);
    CoresMove(s.cfg, s.sh.procs, s.cores, i, c);
  }

  /** The others do not notice that a core has called its process. */
  lemma RunFrame(s: System, i: nat, p: nat)
    requires Inv(s) && i < |s.cores| && Held(s.cores[i]) == Some(p) && RunnableRef(s.sh.procs, p)
    ensures var sh := Run(s.sh, p);
            && ReadyOk(sh.procs, sh.ready) && FinishedOk(sh.procs, sh.finished) && ProcsOk(sh.procs)
            && SleepersOk(sh, s.ticker) && PidsOk(sh.procs, s.makers, sh.nextPid)
            && forall j :: 0 <= j < |s.cores| && j != i ==> CoreOk(s.cfg, sh.procs, s.cores[j])
  {
    hide SleepersOk, CoreOk, Partition, PidsOk;
    HeldExclusively(s.sh, s.cores, i, p);
    ExecuteNextStep(s.sh.procs[p]);
    var sh := Run(s.sh, p);
    CoresFrame(s.cfg, s.sh.procs, sh.procs, s.cores, i);
    SleepersFrame(s.sh, sh, s.ticker);
    PidsFrame(s.sh.procs, p, ExecuteNext(s.sh.procs[p]), s.makers, s.sh.nextPid);
  }

  lemma RunMove(s: System, i: nat)
    requires Inv(s) && i < |s.cores| && Calls(s.cores[i])
    ensures var (sh, c) := RunOrDelay(s.cfg, s.sh, s.cores[i], s.cores[i].current.value);
            Inv(Moved(s, i, sh, c))
  {
    hide PidsOk, SleepersOk, Partition, FinishedOk, ReadyOk, SlotsOk;
    var c0 := s.cores[i];
    var p := c0.current.value;
    var (sh, c) := RunOrDelay(s.cfg, s.sh, c0, p);
    assert CoreOk(s.cfg, s.sh.procs, c0);
    assert CoreOk(s.cfg, sh.procs, c) by {
      ExecuteNextStep(s.sh.procs[p]);
      SliceAdvances(s.cfg, c0, c);
    }
    hide ExecuteNext, SliceAfterCall, SliceBetweenCalls, Good;
    RunFrame(s, i, p);
    PartitionMove(s.sh, sh, s.cores, i, c);
    KeepSlots(s, sh, i, c);
    CoresMove(s.cfg, sh.procs, s.cores, i, c);
  }

  lemma SliceAdvances(cfg: Config, c: Core, next: Core)
    requires SliceBetweenCalls(cfg, c) && c.delay == 0
    requires next.slice == c.slice + 1 && next.ticksOnCurrent == c.ticksOnCurrent + 1
    requires next.delay == cfg.delaysPerExec
    ensures SliceAfterCall(cfg, next)
  {
  }

  /** The slot that a releasing core clears is its own. */
  lemma ReleaseOwnSlot(s: System, i: nat)
    requires Inv(s) && i < |s.cores| && s.cores[i].current.Some? && Held(s.cores[i]) == s.cores[i].current
    ensures SlotOf(s.sh.slots, s.cores[i].current.value) == i
  {
    hide PidsOk, SleepersOk, Partition, FinishedOk, ReadyOk, ProcsOk;
    var p := s.cores[i].current.value;
    HeldExclusively(s.sh, s.cores, i, p);
    forall j | 0 <= j < i ensures s.sh.slots[j] != Some(p) {
      assert CoreOk(s.cfg, s.sh.procs, s.cores[j]);
      assert Held(s.cores[j]) != Some(p);
    }
    SlotOfUnique(s.sh.slots, p, i);
  }

  /** What the three ways to release a core have in common. */
  lemma ReleaseMove(s: System, i: nat, sh: Shared)
    requires Inv(s) && i < |s.cores| && s.cores[i].current.Some? && Held(s.cores[i]) == s.cores[i].current
    requires var released := Release(s.sh, s.cores[i].current.value);
             sh.slots == released.slots && sh.coresUsed == released.coresUsed && sh.procs == s.sh.procs
    requires Listed(sh) == Listed(s.sh) + multiset{s.cores[i].current.value}
    ensures var c := s.cores[i].(pc := Reacquire, current := None);
            SlotsOk(sh, s.cores[i := c]) && Partition(sh, s.cores[i := c]) && CoresOk(s.cfg, sh.procs, s.cores[i := c])
  {
    hide PidsOk, SleepersOk, Partition, FinishedOk, ReadyOk, ProcsOk;
    var c := s.cores[i].(pc := Reacquire, current := None);
    assert CoreOk(s.cfg, s.sh.procs, c);
    hide CoreOk, SlotOf, Contents, HeldBag;
    ReleaseOwnSlot(s, i);
    assert s.sh.slots[i] == s.cores[i].current;
    SlotsMove(s.sh, sh, s.cores, i, c);
    PartitionMove(s.sh, sh, s.cores, i, c);
    CoresMove(s.cfg, s.sh.procs, s.cores, i, c);
  }

  lemma FinishMove(s: System, i: nat)
    requires Inv(s) && i < |s.cores| && s.cores[i].pc == Finishing
    ensures Inv(Apply(s, CoreTurn(i)))
  {
    hide PidsOk, SleepersOk, Partition, ReadyOk, ProcsOk, SlotsOk;
    var c0 := s.cores[i];
    assert CoreOk(s.cfg, s.sh.procs, c0);
    var p := c0.current.value;
    var c := c0.(pc := Reacquire, current := None);
    var sh := MarkFinished(s.sh, p);
    assert Apply(s, CoreTurn(i)) == Moved(s, i, sh, c);
    ReleaseMove(s, i, sh);
    SleepersFrame(s.sh, sh, s.ticker);
  }

  lemma PreemptMove(s: System, i: nat)
    requires Inv(s) && i < |s.cores| && s.cores[i].pc == Preempting
    ensures Inv(Apply(s, CoreTurn(i)))
  {
    hide PidsOk, SleepersOk, Partition, FinishedOk, ProcsOk, SlotsOk;
    var c0 := s.cores[i];
    assert CoreOk(s.cfg, s.sh.procs, c0);
    var p := c0.current.value;
    var c := c0.(pc := Reacquire, current := None);
    var sh := Preempt(s.sh, p, s.cfg.policy);
    assert Apply(s, CoreTurn(i)) == Moved(s, i, sh, c);
    assert sh.ready == s.sh.ready + [p];
    ReleaseMove(s, i, sh);
    SleepersFrame(s.sh, sh, s.ticker);
  }

  lemma ParkMove(s: System, i: nat)
    requires Inv(s) && i < |s.cores| && s.cores[i].pc == Parking
    ensures Inv(Apply(s, CoreTurn(i)))
  {
    hide PidsOk, SleepersOk, Partition, FinishedOk, ReadyOk, ProcsOk, SlotsOk;
    var c0 := s.cores[i];
    assert CoreOk(s.cfg, s.sh.procs, c0);
    var p := c0.current.value;
    var c := c0.(pc := Reacquire, current := None);
    var sh := MoveToSleeping(s.sh, p);
    assert Apply(s, CoreTurn(i)) == Moved(s, i, sh, c);
    HeldExclusively(s.sh, s.cores, i, p);
    assert sh.sleeping == s.sh.sleeping + [p];
    ReleaseMove(s, i, sh);
    ParkedSleepersOk(s.sh, sh, p, s.ticker);
  }

  /** A process parked behind the others joins the sleepers that are not in the round. */
  lemma ParkedSleepersOk(sh: Shared, next: Shared, p: nat, t: Ticker)
    requires SleepersOk(sh, t) && p < |sh.procs| == |sh.parkedAt| && p !in sh.sleeping
    requires sh.procs[p].state == WAITING && sh.procs[p].sleepRemaining == LastSleep(sh.procs[p])
    requires next.procs == sh.procs && next.tick == sh.tick
    requires next.parkedAt == sh.parkedAt[p := sh.tick] && next.sleeping == sh.sleeping + [p]
    ensures SleepersOk(next, t)
  {
    var same := next.(sleeping := sh.sleeping);
    SleepersFrame(sh, same, t);
    var sleepers := SnapshotOf(t);
    assert next.sleeping[..|sleepers|] == sh.sleeping[..|sleepers|];
    forall j | 0 <= j < |sleepers| ensures InRound(next, sleepers[j], BeforeOf(t)[j], j < Ticked(t)) {
      assert InRound(same, sleepers[j], BeforeOf(t)[j], j < Ticked(t));
    }
    forall j | |sleepers| <= j < |next.sleeping| ensures NotInRound(next, next.sleeping[j]) {
      if j < |sh.sleeping| {
        assert NotInRound(same, same.sleeping[j]);
      }
    }
  }

  lemma AcquireKeepsInv(s: System, i: nat)
    requires Inv(s) && i < |s.cores|
    requires s.cores[i].pc == Reacquire || (s.cores[i].pc == Top && s.cores[i].current.None?)
    ensures Inv(Apply(s, CoreTurn(i)))
  {
    hide PidsOk, SleepersOk, Partition, FinishedOk, ReadyOk, ProcsOk, SlotsOk;
    var c := s.cores[i];
    assert CoreOk(s.cfg, s.sh.procs, c);
    var (sh', c') := CoreStep(s.cfg, i, s.sh, c);
    assert Apply(s, CoreTurn(i)) == Moved(s, i, sh', c');
    if s.sh.ready == [] {
      assert sh' == s.sh;
      LocalMove(s, i, c');
    } else {
      PopMove(s, i, c');
    }
  }

  lemma GateKeepsInv(s: System, i: nat)
    requires Inv(s) && i < |s.cores| && s.cores[i].current.Some?
    requires s.cores[i].pc == Gate || s.cores[i].pc == Top
    ensures Inv(Apply(s, CoreTurn(i)))
  {
    hide PidsOk, SleepersOk, Partition, FinishedOk, ReadyOk, ProcsOk, SlotsOk;
    var c := s.cores[i];
    assert CoreOk(s.cfg, s.sh.procs, c);
    var (sh', c') := CoreStep(s.cfg, i, s.sh, c);
    assert Apply(s, CoreTurn(i)) == Moved(s, i, sh', c');
    if c.delay > 0 {
      LocalMove(s, i, c');
    } else {
      RunMove(s, i);
    }
  }

  /** Reading the state of its process tells the core where to go next. */
  lemma CheckKeepsInv(s: System, i: nat)
    requires Inv(s) && i < |s.cores|
    requires s.cores[i].pc in {CheckFinished, CheckWaiting, CheckQuantum}
    ensures Inv(Apply(s, CoreTurn(i)))
  {
    hide PidsOk, SleepersOk, Partition, FinishedOk, ReadyOk, ProcsOk, SlotsOk;
    var c := s.cores[i];
    assert CoreOk(s.cfg, s.sh.procs, c);
    var (sh', c') := CoreStep(s.cfg, i, s.sh, c);
    assert Apply(s, CoreTurn(i)) == Moved(s, i, sh', c');
    LocalMove(s, i, c');
  }

  lemma CoreTurnKeepsInv(s: System, i: nat)
    requires Inv(s) && i < |s.cores|
    ensures Inv(Apply(s, CoreTurn(i)))
  {
    hide PidsOk, SleepersOk, Partition, FinishedOk, ReadyOk, ProcsOk, SlotsOk;
    var c := s.cores[i];
    assert CoreOk(s.cfg, s.sh.procs, c);
    match c.pc
    case Claim(p) => ClaimMove(s, i, p, Gate);
    case Reclaim(p) => ClaimMove(s, i, p, Top);
    case Reacquire => AcquireKeepsInv(s, i);
    case Finishing => FinishMove(s, i);
    case Parking => ParkMove(s, i);
    case Preempting => PreemptMove(s, i);
    case Top => if c.current.None? { AcquireKeepsInv(s, i); } else { GateKeepsInv(s, i); }
    case Gate => GateKeepsInv(s, i);
    case _ => CheckKeepsInv(s, i);
  }
}
