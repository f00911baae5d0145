/** The process class: its methods change the fields step by step, and each is tied to the process
    as a value (module ProcessSpec). */
module ProcessClass {
  import opened Arithmetic
  import opened Instructions
  import opened Options
  import opened ProcessSpec
  import opened StackMachine

  /** The recursive count of the atomics of a program, clamped on the way. */
  method CountAtomics(list: seq<Instruction>) returns (sum: int)
    requires WellFormed(list)
    ensures sum == if |Unroll(list)| > 0x7fff_ffff then 0x7fff_ffff else |Unroll(list)|
    decreases list
  {
    sum := 0;
    for k := 0 to |list|
      invariant sum == Min(|Unroll(list[..k])|, INT_MAX)
    {
      UnrollSnoc(list[..k], list[k]);
      assert list[..k] + [list[k]] == list[..k + 1];
      assert WellFormedOne(list[k]);
      if list[k].For? {
        var inner := CountAtomics(list[k].body);
        RepeatLength(Unroll(list[k].body), list[k].repeats);
        ClampedProduct(sum, list[k].repeats, inner, |Unroll(list[k].body)|);
        assert sum + list[k].repeats * inner <= 0x7fff_ffff_ffff_ffff;  // fits the 64-bit accumulator
        sum := sum + list[k].repeats * inner;
      } else {
        sum := sum + 1;
      }
      if sum > INT_MAX {
        PrefixIsShorter(list, k + 1);
        return INT_MAX;
      }
    }
    assert list[..|list|] == list;
  }

  lemma PrefixIsShorter(list: seq<Instruction>, k: nat)
    requires k <= |list|
    ensures |Unroll(list[..k])| <= |Unroll(list)|
  {
    UnrollConcat(list[..k], list[k..]);
    assert list[..k] + list[k..] == list;
  }

  /** Clamping the length of the body does not change which totals are too big, nor the others. */
  lemma ClampedProduct(sum: int, repeats: int, inner: int, length: nat)
    requires 0 <= sum <= INT_MAX && 0 <= repeats <= INT_MAX && inner == Min(length, INT_MAX)
    ensures Min(sum + repeats * inner, INT_MAX) == Min(sum + repeats * length, INT_MAX)
    ensures 0 <= repeats * inner <= 0x7fff_ffff * 0x7fff_ffff
    ensures repeats * length >= 0
  {
    Scaled(0, repeats, inner);
    Scaled(0, repeats, length);
    Scaled(repeats, INT_MAX, inner);
    Scaled(inner, INT_MAX, INT_MAX);
    if length > INT_MAX {
      assert inner == INT_MAX;
      if repeats > 0 {
        Scaled(1, repeats, inner);
        Scaled(1, repeats, length);
      }
    }
  }

  class Process {
    const pid: int
    const name: string
    const program: seq<Instruction>
    const totalInstructions: int
    const createdAt: int

    var state: ProcessState
    var currentLine: int
    var variables: map<string, UInt16>
    var printLog: seq<string>
    var execStack: seq<Frame>
    var sleepRemaining: int

    ghost predicate Valid()
      reads this
    {
      StackOk(execStack)
    }

    /** The process as a value. */
    ghost function View(): Proc
      requires Valid()
      reads this
    {
      Proc(pid, name, createdAt, Unroll(program), totalInstructions, state, currentLine,
           Memory(variables, printLog), Rest(execStack), sleepRemaining)
    }

    constructor (pid: int, name: string, program: seq<Instruction>, createdAt: int)
      requires WellFormed(program)
      ensures Valid()
      ensures this.program == program
      ensures View() == NewProc(pid, name, createdAt, Unroll(program)).(
                          total := if |Unroll(program)| > 0x7fff_ffff then 0x7fff_ffff else |Unroll(program)|)
    {
      this.pid := pid;
      this.name := name;
      this.program := program;
      this.createdAt := createdAt;
      var total := CountAtomics(program);
      totalInstructions := total;
      currentLine := 0;
      variables := map[];
      printLog := [];
      sleepRemaining := 0;
      if total == 0 {
        state := FINISHED;
        execStack := [];
      } else {
        state := READY;
        execStack := [Frame(program, 0, 1)];
      }
      new;
      if total != 0 {
        Pushed([], Frame(program, 0, 1));
        assert [] + [Frame(program, 0, 1)] == [Frame(program, 0, 1)];
        assert program[0..] == program;
      }
    }

    /** Hands out the next atomic of the unrolled program: the head of what is left, or nothing
        exactly when nothing is left. */
    method NextAtomic() returns (next: Option<Atomic>)
      requires Valid()
      modifies this`execStack
      ensures Valid()
      ensures next.None? <==> old(Rest(execStack)) == []
      ensures next.Some? ==> old(Rest(execStack)) == [next.value] + Rest(execStack)
      ensures next.None? ==> execStack == [] && Rest(execStack) == []
      ensures old(AtAtom(execStack)) ==> next == Some(old(Top(execStack).list[Top(execStack).ip].atom))
    {
      hide StackCost, Unroll;
      if AtAtom(execStack) {
        AtomIsNext(execStack);
      }
      while execStack != []
        invariant StackOk(execStack)
        invariant Rest(execStack) == old(Rest(execStack))
        decreases StackCost(execStack)
      {
        var f := Top(execStack);
        if f.ip >= |f.list| {
          var loops := f.loopsRemaining - 1;
          if loops > 0 {
            Rewind(execStack);
            execStack := WithTop(execStack, Frame(f.list, 0, loops));
            continue;
          }
          PopDone(execStack);
          execStack := execStack[..|execStack| - 1];
          continue;
        }

        var instr := f.list[f.ip];
        StepOver(execStack);
        execStack := WithTop(execStack, f.(ip := f.ip + 1));

        if instr.For? {
          if instr.repeats > 0 && instr.body != [] {
            Descend(execStack, instr);
            execStack := execStack + [Frame(instr.body, 0, instr.repeats)];
          } else {
            SkippedLoopIsEmpty(instr);
          }
          continue;
        }
        return Some(instr.atom);
      }
      return None;
    }

    method ExecuteNext()
      requires Valid()
      modifies this
      ensures Valid() && View() == ProcessSpec.ExecuteNext(old(View()))
      ensures old(state) == FINISHED ==> state == FINISHED && currentLine == old(currentLine)
      ensures old(state) != FINISHED && old(Rest(execStack)) == [] ==> state == FINISHED && currentLine == old(currentLine)
      ensures old(state) != FINISHED && old(Rest(execStack)) != [] ==>
                && currentLine == old(currentLine) + 1 && Rest(execStack) == old(Rest(execStack))[1..]
                && var a := old(Rest(execStack))[0];
                   if a.Sleep? && a.ticks > 0 then state == WAITING && sleepRemaining == a.ticks
                   else sleepRemaining == old(sleepRemaining)
                        && state == if currentLine >= totalInstructions then FINISHED else RUNNING
    {
      hide Unroll, Rest, Effect;
      if state == FINISHED { return; }

      var next := NextAtomic();
      if next.None? {
        state := FINISHED;
        return;
      }

      state := RUNNING;
      Execute(next.value);
      currentLine := currentLine + 1;

      if state != WAITING && currentLine >= totalInstructions {
        state := FINISHED;
      }
    }

    method TickSleep()
      requires Valid()
      modifies this`sleepRemaining, this`state
      ensures Valid() && View() == ProcessSpec.TickSleep(old(View()))
      ensures old(state) != WAITING ==> state == old(state) && sleepRemaining == old(sleepRemaining)
      ensures old(state) == WAITING ==>
                && sleepRemaining == (if old(sleepRemaining) > 0 then old(sleepRemaining) - 1 else old(sleepRemaining))
                && state == if sleepRemaining == 0 then READY else WAITING
    {
      if state != WAITING { return; }
      if sleepRemaining > 0 { sleepRemaining := sleepRemaining - 1; }
      if sleepRemaining == 0 { state := READY; }
    }

    // -------------------------------------------------------------------------------------------
    // What the instructions do

    method GetVar(x: string) returns (v: UInt16)
      modifies this`variables
      ensures v == if x in old(variables) then old(variables)[x] else 0
      ensures variables == if x in old(variables) then old(variables) else old(variables)[x := 0]
    {
      if x !in variables {
        variables := variables[x := 0];
      }
      v := variables[x];
    }

    method SetVar(x: string, v: UInt16)
      modifies this`variables
      ensures variables == old(variables)[x := v]
    {
      variables := variables[x := v];
    }

    method AppendPrint(message: string)
      modifies this`printLog
      ensures printLog == old(printLog) + [message]
    {
      printLog := printLog + [message];
    }

    method RequestSleep(ticks: UInt8)
      requires Valid()
      modifies this`sleepRemaining, this`state
      ensures Valid() && View() == ProcessSpec.RequestSleep(old(View()), ticks)
      ensures ticks == 0 ==> state == old(state) && sleepRemaining == old(sleepRemaining)
      ensures ticks > 0 ==> state == WAITING && sleepRemaining == ticks
    {
      if ticks == 0 { return; }
      sleepRemaining := ticks;
      state := WAITING;
    }

    method Resolve(op: Operand) returns (v: UInt16)
      modifies this`variables
      ensures v == Value(old(variables), op) && variables == TouchOperand(old(variables), op)
      ensures op.Literal? ==> v == op.value
      ensures op.Variable? ==> v == if op.name in old(variables) then old(variables)[op.name] else 0
    {
      match op
      case Literal(value) => v := value;
      case Variable(x) => v := GetVar(x);
    }

    /** The `execute` of each kind of instruction. */
    method Execute(a: Atomic)
      requires Valid()
      modifies this`variables, this`printLog, this`sleepRemaining, this`state
      ensures Valid() && View() == Perform(old(View()), a)
    {
      match a
      case Print(message, varRef) =>
        if message == "" && varRef == "" {
          AppendPrint(Greeting(name));
          return;
        }
        var out := message;
        if varRef != "" {
          var v := GetVar(varRef);
          out := out + Decimal(v);
        }
        AppendPrint(out);
      case Declare(x, v) =>
        SetVar(x, v);
      case Add(target, op2, op3) =>
        var x: int := Resolve(op2);
        var y: int := Resolve(op3);
        var result: nat := x + y;
        if result > UINT16_MAX { result := UINT16_MAX; }
        TouchedValue(old(variables), op2, op3);
        SetVar(target, result);
      case Subtract(target, op2, op3) =>
        var x: int := Resolve(op2);
        var y: int := Resolve(op3);
        TouchedValue(old(variables), op2, op3);
        var result: int := x - y;
        SetVar(target, Clamp(result));
      case Sleep(ticks) =>
        RequestSleep(ticks);
    }
  }

  ghost predicate AllValid(ps: seq<Process>)
    reads ps
  {
    forall k :: 0 <= k < |ps| ==> ps[k].Valid()
  }

  /** Processes as values. */
  ghost function Views(ps: seq<Process>): (views: seq<Proc>)
    requires AllValid(ps)
    reads ps
    ensures |views| == |ps| && forall k :: 0 <= k < |ps| ==> views[k] == ps[k].View()
  {
    seq(|ps|, k requires 0 <= k < |ps| && ps[k].Valid() reads ps => ps[k].View())
  }

  /** Declaring the first operand does not change the value of the second. */
  lemma TouchedValue(vars: map<string, UInt16>, op2: Operand, op3: Operand)
    ensures Value(TouchOperand(vars, op2), op3) == Value(vars, op3)
  {
  }
}
