/** The state that the threads share and what each lock region does to it.

    A process pointer is an index into `procs`, the processes the engine owns in the order in which
    they arrived. */
module SchedulerSpec {
  import opened Options
  import opened ProcessSpec

  datatype Policy = FCFS | RR

  datatype Config = Config(numCpu: nat, policy: Policy, quantum: nat, delaysPerExec: nat)

  /** `parkedAt[p]` is a history variable: how many tick rounds had begun when `p` was last parked. */
  datatype Shared = Shared(
    procs: seq<Proc>,
    ready: seq<nat>,
    slots: seq<Option<nat>>,
    sleeping: seq<nat>,
    finished: seq<nat>,
    coresUsed: int,
    nextPid: int,
    tick: nat,
    parkedAt: seq<nat>)

  function StateOf(procs: seq<Proc>, p: nat): ProcessState {
    if p < |procs| then procs[p].state else FINISHED
  }

  // ---------------------------------------------------------------------------------------------
  // Policies

  function PickNext(ready: seq<nat>): (r: (Option<nat>, seq<nat>)) {
    if ready == [] then (None, ready) else (Some(ready[0]), ready[1..])
  }

  predicate ShouldKeepRunning(policy: Policy, state: ProcessState, ticksOnCore: int, quantum: nat) {
    && state != FINISHED
    && state != WAITING
    && (policy == RR && quantum != 0 ==> ticksOnCore < quantum)
  }

  function OnPreempt(policy: Policy, state: ProcessState, p: nat, ready: seq<nat>): seq<nat> {
    if policy == FCFS || state == FINISHED then ready else ready + [p]
  }

  // ---------------------------------------------------------------------------------------------
  // Lock regions of the cores

  function PopReady(sh: Shared): (Option<nat>, Shared) {
    var (p, ready) := PickNext(sh.ready);
    (p, sh.(ready := ready))
  }

  function MarkRunning(sh: Shared, p: nat, core: nat): Shared {
    if core >= |sh.slots| || sh.slots[core] == Some(p) then sh
    else sh.(slots := sh.slots[core := Some(p)],
             coresUsed := if sh.slots[core] == None then sh.coresUsed + 1 else sh.coresUsed)
  }

  /** The first slot that holds `p`, or the number of slots when none does. */
  function SlotOf(slots: seq<Option<nat>>, p: nat): nat {
    if slots == [] || slots[0] == Some(p) then 0 else 1 + SlotOf(slots[1..], p)
  }

  lemma {:induction false} SlotOfFirst(slots: seq<Option<nat>>, p: nat)
    ensures SlotOf(slots, p) <= |slots|
    ensures SlotOf(slots, p) < |slots| ==> slots[SlotOf(slots, p)] == Some(p)
    ensures forall k :: 0 <= k < SlotOf(slots, p) ==> slots[k] != Some(p)
  {
    if slots != [] && slots[0] != Some(p) {
      SlotOfFirst(slots[1..], p);
      var n := SlotOf(slots[1..], p);
      assert SlotOf(slots, p) == 1 + n;
      forall k | 0 <= k < 1 + n ensures slots[k] != Some(p) {
        if k > 0 {
          assert slots[1..][k - 1] == slots[k];
        }
      }
    }
  }

  lemma SlotOfUnique(slots: seq<Option<nat>>, p: nat, k: nat)
    requires k <= |slots|
    requires k < |slots| ==> slots[k] == Some(p)
    requires forall j :: 0 <= j < k ==> slots[j] != Some(p)
    ensures SlotOf(slots, p) == k
  {
    SlotOfFirst(slots, p);
  }

  /** Search and clear: take `p` out of the first slot that shows it. */
  function Release(sh: Shared, p: nat): Shared {
    var k := SlotOf(sh.slots, p);
    if k < |sh.slots| then sh.(slots := sh.slots[k := None], coresUsed := sh.coresUsed - 1) else sh
  }

  function MarkFinished(sh: Shared, p: nat): Shared {
    var released := Release(sh, p);
    released.(finished := released.finished + [p])
  }

  function Preempt(sh: Shared, p: nat, policy: Policy): Shared {
    var released := Release(sh, p);
    released.(ready := OnPreempt(policy, StateOf(sh.procs, p), p, released.ready))
  }

  function MoveToSleeping(sh: Shared, p: nat): Shared {
    var released := Release(sh, p);
    var noted := if p < |sh.parkedAt| then released.(parkedAt := sh.parkedAt[p := sh.tick]) else released;
    if p in sh.sleeping then noted else noted.(sleeping := sh.sleeping + [p])
  }

  // ---------------------------------------------------------------------------------------------
  // Process calls, made with no lock of the engine held

  function WithProc(sh: Shared, p: nat, q: Proc): Shared {
    if p < |sh.procs| then sh.(procs := sh.procs[p := q]) else sh
  }

  function Run(sh: Shared, p: nat): Shared {
    if p < |sh.procs| then WithProc(sh, p, ExecuteNext(sh.procs[p])) else sh
  }

  function Tick(sh: Shared, p: nat): Shared {
    if p < |sh.procs| then WithProc(sh, p, TickSleep(sh.procs[p])) else sh
  }

  // ---------------------------------------------------------------------------------------------
  // Waking up

  /** Earlier arrival first, then lower PID. */
  predicate WakesBefore(p: Proc, q: Proc) {
    p.createdAt < q.createdAt || (p.createdAt == q.createdAt && p.pid < q.pid)
  }

  predicate WakesBeforeRef(procs: seq<Proc>, p: nat, q: nat) {
    p < |procs| && q < |procs| && WakesBefore(procs[p], procs[q])
  }

  function Insert(procs: seq<Proc>, p: nat, sorted: seq<nat>): seq<nat> {
    if sorted == [] || WakesBeforeRef(procs, p, sorted[0]) then [p] + sorted
    else [sorted[0]] + Insert(procs, p, sorted[1..])
  }

  /** The order of the woken sleepers. */
  function WakeOrder(procs: seq<Proc>, woken: seq<nat>): seq<nat> {
    if woken == [] then [] else Insert(procs, woken[0], WakeOrder(procs, woken[1..]))
  }

  /** The members of `s` that are in `keep`, in order; and the others, in order. */
  function Those(s: seq<nat>, keep: seq<nat>): seq<nat> {
    if s == [] then []
    else if s[|s| - 1] in keep then Those(s[..|s| - 1], keep) + [s[|s| - 1]]
    else Those(s[..|s| - 1], keep)
  }

  function Others(s: seq<nat>, drop: seq<nat>): seq<nat> {
    if s == [] then []
    else if s[|s| - 1] in drop then Others(s[..|s| - 1], drop)
    else Others(s[..|s| - 1], drop) + [s[|s| - 1]]
  }

  /** The last lock region of a tick round, computed from the current lists. */
  function Rebuild(sh: Shared, woken: seq<nat>): Shared {
    var stillTracked := Those(sh.sleeping, woken);
    sh.(ready := Those(woken, stillTracked) + sh.ready, sleeping := Others(sh.sleeping, woken))
  }

  // ---------------------------------------------------------------------------------------------
  // Creating processes

  function TakePid(sh: Shared): Shared {
    sh.(nextPid := sh.nextPid + 1)
  }

  function Admit(sh: Shared, proc: Proc): Shared {
    sh.(procs := sh.procs + [proc], ready := sh.ready + [|sh.procs|], parkedAt := sh.parkedAt + [0])
  }
}
