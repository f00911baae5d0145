/** The explicit stack that runs a program of nested loops one atomic at a time, and what is left to
    run on it. The top frame is the last one. */
module StackMachine {
  import opened Instructions

  datatype Frame = Frame(list: seq<Instruction>, ip: nat, loopsRemaining: int)

  predicate FrameOk(f: Frame) {
    f.ip <= |f.list| && f.loopsRemaining >= 1
  }

  predicate StackOk(stack: seq<Frame>) {
    forall k :: 0 <= k < |stack| ==> FrameOk(stack[k])
  }

  /** The rest of the current pass and then the passes still to come. */
  function FrameRest(f: Frame): seq<Atomic>
    requires FrameOk(f)
  {
    Unroll(f.list[f.ip..]) + Repeat(Unroll(f.list), f.loopsRemaining - 1)
  }

  function Rest(stack: seq<Frame>): seq<Atomic>
    requires StackOk(stack)
  {
    if stack == [] then [] else FrameRest(stack[|stack| - 1]) + Rest(stack[..|stack| - 1])
  }

  // ---------------------------------------------------------------------------------------------
  // How many loop iterations the machine takes to run dry. Every iteration lowers it by one, also
  // the iterations that hand out no atomic.

  /** `n` passes over a list of cost `cost`, each with the iteration that ends it. */
  function Passes(n: int, cost: nat): nat
    decreases if n <= 0 then 0 else n
  {
    if n <= 0 then 0 else cost + 1 + Passes(n - 1, cost)
  }

  function CostOne(i: Instruction): nat
    decreases i, 0
  {
    match i
    case Atom(_) => 1
    case For(body, n) => if body == [] then 1 else 1 + Passes(n, CostList(body))
  }

  function CostList(list: seq<Instruction>): nat
    decreases list, 1
  {
    if list == [] then 0 else CostOne(list[0]) + CostList(list[1..])
  }

  function FrameCost(f: Frame): nat
    requires FrameOk(f)
  {
    CostList(f.list[f.ip..]) + 1 + Passes(f.loopsRemaining - 1, CostList(f.list))
  }

  function StackCost(stack: seq<Frame>): nat
    requires StackOk(stack)
  {
    if stack == [] then 0 else FrameCost(stack[|stack| - 1]) + StackCost(stack[..|stack| - 1])
  }

  // ---------------------------------------------------------------------------------------------
  // The moves of the machine

  /** The stack with its top frame replaced. */
  function WithTop(stack: seq<Frame>, f: Frame): seq<Frame>
    requires stack != []
  {
    stack[|stack| - 1 := f]
  }

  function Top(stack: seq<Frame>): Frame
    requires stack != []
  {
    stack[|stack| - 1]
  }

  lemma WithTopRest(stack: seq<Frame>, f: Frame)
    requires stack != [] && StackOk(stack) && FrameOk(f)
    ensures StackOk(WithTop(stack, f))
    ensures Rest(WithTop(stack, f)) == FrameRest(f) + Rest(stack[..|stack| - 1])
    ensures StackCost(WithTop(stack, f)) == FrameCost(f) + StackCost(stack[..|stack| - 1])
  {
    assert WithTop(stack, f)[..|stack| - 1] == stack[..|stack| - 1];
  }

  lemma Pushed(stack: seq<Frame>, f: Frame)
    requires StackOk(stack) && FrameOk(f)
    ensures StackOk(stack + [f])
    ensures Rest(stack + [f]) == FrameRest(f) + Rest(stack)
    ensures StackCost(stack + [f]) == FrameCost(f) + StackCost(stack)
  {
    assert (stack + [f])[..|stack|] == stack;
  }

  lemma RewindFrame(f: Frame)
    requires FrameOk(f) && f.ip == |f.list| && f.loopsRemaining > 1
    ensures var g := Frame(f.list, 0, f.loopsRemaining - 1);
            FrameRest(g) == FrameRest(f) && FrameCost(g) == FrameCost(f) - 1
  {
    hide UnrollOne, CostOne;
    assert f.list[f.ip..] == [] && f.list[0..] == f.list;
    assert [] + Repeat(Unroll(f.list), f.loopsRemaining - 1) == Repeat(Unroll(f.list), f.loopsRemaining - 1);
  }

  /** One more pass over the body of the top frame. */
  lemma Rewind(stack: seq<Frame>)
    requires stack != [] && StackOk(stack)
    requires var f := Top(stack); f.ip == |f.list| && f.loopsRemaining > 1
    ensures var f := Top(stack);
            var next := WithTop(stack, Frame(f.list, 0, f.loopsRemaining - 1));
            StackOk(next) && Rest(next) == Rest(stack) && StackCost(next) == StackCost(stack) - 1
  {
    var f := Top(stack);
    var g := Frame(f.list, 0, f.loopsRemaining - 1);
    RewindFrame(f);
    WithTopRest(stack, g);
  }

  /** Nothing is left in a frame whose last pass is over. */
  lemma PopDone(stack: seq<Frame>)
    requires stack != [] && StackOk(stack)
    requires var f := Top(stack); f.ip == |f.list| && f.loopsRemaining == 1
    ensures var next := stack[..|stack| - 1];
            StackOk(next) && Rest(next) == Rest(stack) && StackCost(next) == StackCost(stack) - 1
  {
    var f := Top(stack);
    assert f.list[f.ip..] == [];
  }

  /** The top frame stands at an atomic. */
  predicate AtAtom(stack: seq<Frame>) {
    stack != [] && Top(stack).ip < |Top(stack).list| && Top(stack).list[Top(stack).ip].Atom?
  }

  /** The atomic at which the top frame stands is the next to run. */
  lemma AtomIsNext(stack: seq<Frame>)
    requires StackOk(stack) && AtAtom(stack)
    ensures Rest(stack) != [] && Rest(stack)[0] == Top(stack).list[Top(stack).ip].atom
  {
    var f := Top(stack);
    var tail := f.list[f.ip..];
    assert tail[0] == f.list[f.ip] && UnrollOne(tail[0]) == [f.list[f.ip].atom];
    assert Unroll(tail) == [f.list[f.ip].atom] + Unroll(tail[1..]);
  }

  lemma StepOverFrame(f: Frame)
    requires FrameOk(f) && f.ip < |f.list|
    ensures var g := f.(ip := f.ip + 1);
            && FrameRest(f) == UnrollOne(f.list[f.ip]) + FrameRest(g)
            && FrameCost(f) == CostOne(f.list[f.ip]) + FrameCost(g)
  {
    hide UnrollOne, CostOne;
    var tail, passes := f.list[f.ip..], Repeat(Unroll(f.list), f.loopsRemaining - 1);
    assert tail[0] == f.list[f.ip] && tail[1..] == f.list[f.ip + 1..];
    assert (UnrollOne(tail[0]) + Unroll(tail[1..])) + passes == UnrollOne(tail[0]) + (Unroll(tail[1..]) + passes);
  }

  lemma TopAndBelow(stack: seq<Frame>)
    requires stack != [] && StackOk(stack)
    ensures Rest(stack) == FrameRest(Top(stack)) + Rest(stack[..|stack| - 1])
    ensures StackCost(stack) == FrameCost(Top(stack)) + StackCost(stack[..|stack| - 1])
  {
  }

  /** Stepping over the next instruction takes its unrolling off the stack. */
  lemma StepOver(stack: seq<Frame>)
    requires stack != [] && StackOk(stack)
    requires var f := Top(stack); f.ip < |f.list|
    ensures var f := Top(stack);
            var next := WithTop(stack, f.(ip := f.ip + 1));
            && StackOk(next)
            && Rest(stack) == UnrollOne(f.list[f.ip]) + Rest(next)
            && StackCost(stack) == CostOne(f.list[f.ip]) + StackCost(next)
  {
    var f := Top(stack);
    var g := f.(ip := f.ip + 1);
    hide UnrollOne, CostOne, FrameRest, FrameCost, Rest, StackCost;
    StepOverFrame(f);
    TopAndBelow(stack);
    WithTopRest(stack, g);
    var one, below := UnrollOne(f.list[f.ip]), Rest(stack[..|stack| - 1]);
    assert Rest(stack) == (one + FrameRest(g)) + below;
    assert (one + FrameRest(g)) + below == one + (FrameRest(g) + below);
  }

  /** Descending into a loop puts its whole unrolling on the stack. */
  lemma Descend(stack: seq<Frame>, i: Instruction)
    requires StackOk(stack) && i.For? && i.repeats > 0 && i.body != []
    ensures var next := stack + [Frame(i.body, 0, i.repeats)];
            && StackOk(next)
            && Rest(next) == UnrollOne(i) + Rest(stack)
            && StackCost(next) == CostOne(i) - 1 + StackCost(stack)
  {
    assert i.body[0..] == i.body;
    Pushed(stack, Frame(i.body, 0, i.repeats));
  }

  /** Skipped loops run nothing: they have no passes or nothing in their body. */
  lemma {:induction false} SkippedLoopIsEmpty(i: Instruction)
    requires i.For? && (i.repeats <= 0 || i.body == [])
    ensures UnrollOne(i) == []
    decreases if i.For? && i.repeats > 0 then i.repeats else 0
  {
    if i.repeats > 0 {
      SkippedLoopIsEmpty(For(i.body, i.repeats - 1));
    }
  }
}
