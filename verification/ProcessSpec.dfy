/** One process as a value: what `executeNext` and `tickSleep` do to it, the invariant that every
    reachable process keeps, and how many `executeNext` calls it still needs. */
module ProcessSpec {
  import opened Instructions

  datatype ProcessState = READY | RUNNING | WAITING | FINISHED

  /** `code` is the whole unrolled program and `rest` the part that the execution stack has not
      handed out yet. */
  datatype Proc = Proc(
    pid: int,
    name: string,
    createdAt: int,
    code: seq<Atomic>,
    total: int,
    state: ProcessState,
    line: int,
    memory: Memory,
    rest: seq<Atomic>,
    sleepRemaining: int)

  function NewProc(pid: int, name: string, createdAt: int, code: seq<Atomic>): Proc {
    Proc(pid, name, createdAt, code, |code|, if code == [] then FINISHED else READY, 0, EMPTY, code, 0)
  }

  // ---------------------------------------------------------------------------------------------
  // Steps

  function RequestSleep(p: Proc, ticks: UInt8): Proc {
    if ticks == 0 then p else p.(sleepRemaining := ticks, state := WAITING)
  }

  function Perform(p: Proc, a: Atomic): Proc {
    if a.Sleep? then RequestSleep(p, a.ticks) else p.(memory := Effect(p.name, p.memory, a))
  }

  function ExecuteNext(p: Proc): Proc {
    if p.state == FINISHED then p
    else if p.rest == [] then p.(state := FINISHED)
    else
      var q := Perform(p.(state := RUNNING, rest := p.rest[1..]), p.rest[0]);
      var r := q.(line := q.line + 1);
      if r.state != WAITING && r.line >= r.total then r.(state := FINISHED) else r
  }

  function TickSleep(p: Proc): Proc {
    if p.state != WAITING then p
    else
      var left := if p.sleepRemaining > 0 then p.sleepRemaining - 1 else p.sleepRemaining;
      p.(sleepRemaining := left, state := if left == 0 then READY else WAITING)
  }

  // ---------------------------------------------------------------------------------------------
  // The invariant

  predicate Runnable(p: Proc) {
    p.state == READY || p.state == RUNNING
  }

  /** The duration of the sleep that the last executed atomic asked for; 0 when it asked for none. */
  function LastSleep(p: Proc): nat {
    if 0 < p.line <= |p.code| then SleepTicks(p.code[p.line - 1]) else 0
  }

  /** The lifecycle of a process: how its state, line and remaining sleep fit together. */
  ghost predicate Lifecycle(p: Proc) {
    && 0 <= p.line <= p.total == |p.code| && 0 < p.total
    && (p.state == WAITING <==> p.sleepRemaining > 0)
    && 0 <= p.sleepRemaining <= LastSleep(p)
    && (p.state == READY ==> p.line == 0 || LastSleep(p) > 0)
    && (p.state == RUNNING ==> 0 < p.line && LastSleep(p) == 0)
    && (p.state == FINISHED ==> p.line == p.total)
    && (p.line == p.total && p.state != FINISHED ==> LastSleep(p) > 0)
  }

  /** How much of its program the process has run: `line` atomics are behind it and their meaning
      is what its memory shows; the others are still to come. */
  ghost predicate Progress(p: Proc) {
    && 0 <= p.line <= |p.code|
    && p.rest == p.code[p.line..]
    && Indistinguishable(p.memory, Meaning(p.name, p.code[..p.line]))
  }

  ghost predicate Good(p: Proc) {
    Lifecycle(p) && Progress(p)
  }

  /** What never changes about a process. */
  predicate SameIdentity(p: Proc, q: Proc) {
    && p.pid == q.pid && p.name == q.name && p.createdAt == q.createdAt
    && p.code == q.code && p.total == q.total
  }

  /** How many `executeNext` calls a program needs: one for each atomic, and one more to notice the
      end when the last atomic is a real SLEEP. */
  function Cost(code: seq<Atomic>): nat {
    |code| + if EndsAsleep(code) then 1 else 0
  }

  /** How many `executeNext` calls the process still needs. */
  function Fuel(p: Proc): int {
    if p.state == FINISHED then 0 else Cost(p.code) - p.line
  }

  lemma NewProcIsGood(pid: int, name: string, createdAt: int, code: seq<Atomic>)
    requires code != []
    ensures Good(NewProc(pid, name, createdAt, code))
    ensures Fuel(NewProc(pid, name, createdAt, code)) == Cost(code)
  {
    assert code[..0] == [];
  }

  lemma ExecuteNextProgress(p: Proc)
    requires Progress(p) && p.state != FINISHED
    ensures Progress(ExecuteNext(p))
  {
    if p.line < |p.code| {
      var a := p.rest[0];
      assert a == p.code[p.line];
      assert p.rest[1..] == p.code[p.line + 1..];
      MeaningSnoc(p.name, p.code, p.line);
      EffectMatchesReference(p.name, p.memory, Meaning(p.name, p.code[..p.line]), a);
    }
  }

  /** What a call does to everything but the memory: one atomic and one unit of fuel. */
  lemma ExecuteNextLifecycle(p: Proc)
    requires Lifecycle(p) && p.rest == p.code[p.line..] && Runnable(p)
    ensures var q := ExecuteNext(p);
            && Lifecycle(q) && SameIdentity(p, q)
            && Fuel(q) == Fuel(p) - 1
            && q.state != READY
            && (q.state == WAITING ==> q.sleepRemaining == LastSleep(q))
            && q.line == if p.line < p.total then p.line + 1 else p.line
  {
    var q := ExecuteNext(p);
    if p.line == p.total {
      assert q == p.(state := FINISHED);
      assert LastSleep(p) == SleepTicks(p.code[|p.code| - 1]);
    } else {
      var a := p.rest[0];
      assert a == p.code[p.line];
      assert q.line == p.line + 1 && LastSleep(q) == SleepTicks(a);
      if SleepTicks(a) > 0 {
        assert q.state == WAITING && q.sleepRemaining == SleepTicks(a);
      } else {
        assert q.sleepRemaining == p.sleepRemaining == 0;
        assert q.state == if q.line == q.total then FINISHED else RUNNING;
        assert q.line == q.total ==> Cost(q.code) == q.total;
      }
    }
  }

  /** What state a call leaves its process in, in terms of the atomic it runs. */
  lemma ExecuteNextState(p: Proc)
    requires Lifecycle(p) && p.rest == p.code[p.line..] && Runnable(p)
    ensures var q, more := ExecuteNext(p), p.line < p.total;
            && (q.state == WAITING <==> more && p.code[p.line].Sleep? && p.code[p.line].ticks > 0)
            && (q.state == WAITING ==> q.sleepRemaining == p.code[p.line].ticks)
            && (q.state == FINISHED <==> p.line + 1 >= p.total && q.state != WAITING)
  {
    if p.line < p.total {
      assert p.rest[0] == p.code[p.line];
    }
  }

  /** One call by a core. It runs exactly one atomic and costs exactly one unit of fuel; the process
      ends up RUNNING, WAITING for exactly the requested ticks, or FINISHED. */
  lemma ExecuteNextStep(p: Proc)
    requires Good(p) && Runnable(p)
    ensures var q := ExecuteNext(p);
            && Good(q) && SameIdentity(p, q)
            && Fuel(q) == Fuel(p) - 1
            && q.state != READY
            && (q.state == WAITING ==> q.sleepRemaining == LastSleep(q))
            && q.line == (if p.line < p.total then p.line + 1 else p.line)
            && (q.state == WAITING <==> p.line < p.total && p.code[p.line].Sleep? && p.code[p.line].ticks > 0)
            && (q.state == WAITING ==> q.sleepRemaining == p.code[p.line].ticks)
            && (q.state == FINISHED <==> p.line + 1 >= p.total && q.state != WAITING)
  {
    ExecuteNextLifecycle(p);
    ExecuteNextState(p);
    ExecuteNextProgress(p);
  }

  lemma TickSleepStep(p: Proc)
    requires Good(p) && p.state == WAITING
    ensures var q := TickSleep(p);
            && Good(q) && SameIdentity(p, q) && Fuel(q) == Fuel(p)
            && q.line == p.line && q.sleepRemaining == p.sleepRemaining - 1
            && p.sleepRemaining >= 1
            && (q.state == READY <==> p.sleepRemaining == 1)
            && (q.state == WAITING <==> p.sleepRemaining > 1)
  {
  }

  /** A process needs no more calls exactly when it is FINISHED. */
  lemma FuelZeroIffFinished(p: Proc)
    requires Good(p)
    ensures Fuel(p) >= 0
    ensures Fuel(p) == 0 <==> p.state == FINISHED
  {
    if p.state != FINISHED && p.line == p.total {
      assert LastSleep(p) == SleepTicks(p.code[|p.code| - 1]);
    }
  }

  /** FINISHED is absorbing, and a finished process shows the meaning of its whole program. */
  lemma FinishedIsFinal(p: Proc)
    requires Good(p) && p.state == FINISHED
    ensures ExecuteNext(p) == p && TickSleep(p) == p
    ensures p.line == p.total && p.rest == []
    ensures Indistinguishable(p.memory, Meaning(p.name, p.code))
  {
    assert p.code[..p.line] == p.code;
  }

  // ---------------------------------------------------------------------------------------------
// A process driven alone: a core calls it when it may run and the sleep manager ticks it when it
  // may not. Both finish: the number of turns is known in advance, and so is the number of calls.

  function Turn(p: Proc): Proc {
    if p.state == WAITING then TickSleep(p) else ExecuteNext(p)
  }

  function After(p: Proc, turns: nat): Proc
    decreases turns
  {
    if turns == 0 then p else After(Turn(p), turns - 1)
  }

  /** How many of `turns` turns call `executeNext` on a process that is not FINISHED. */
  function CallsIn(p: Proc, turns: nat): nat
    decreases turns
  {
    if turns == 0 then 0
    else (if p.state == WAITING || p.state == FINISHED then 0 else 1) + CallsIn(Turn(p), turns - 1)
  }

  /** The turns a process still needs: its calls and the ticks of all its sleeps. */
  function TurnsLeft(p: Proc): int {
    Fuel(p) + p.sleepRemaining + SleepSum(p.rest)
  }

  lemma TurnStep(p: Proc)
    requires Good(p) && p.state != FINISHED
    ensures Good(Turn(p)) && SameIdentity(p, Turn(p))
    ensures TurnsLeft(Turn(p)) == TurnsLeft(p) - 1
    ensures Fuel(Turn(p)) == Fuel(p) - if p.state == WAITING then 0 else 1
  {
    if p.state == WAITING {
      TickSleepStep(p);
    } else {
      ExecuteNextStep(p);
      if p.line < p.total {
        assert p.rest[0] == p.code[p.line];
        assert Turn(p).rest == p.rest[1..];
        assert LastSleep(Turn(p)) == SleepTicks(p.rest[0]);
      }
    }
  }

  /** Left alone, every process finishes after exactly the turns and calls it needs, and then shows
      the meaning of its program. Fewer turns are not enough. */
  lemma {:induction false} RunsToCompletion(p: Proc, turns: nat)
    requires Good(p)
    ensures TurnsLeft(p) >= 0
    ensures var q := After(p, turns);
            && Good(q) && SameIdentity(p, q)
            && (q.state == FINISHED <==> turns >= TurnsLeft(p))
            && CallsIn(p, turns) + Fuel(q) == Fuel(p)
    decreases turns
  {
    FuelZeroIffFinished(p);
    hide Progress, Cost, ExecuteNext, TickSleep;
    if p.state == FINISHED {
      FinishedIsFinal(p);
      if turns > 0 {
        RunsToCompletion(p, turns - 1);
      }
    } else if turns > 0 {
      TurnStep(p);
      RunsToCompletion(Turn(p), turns - 1);
    }
  }
}
