/** The random program generator. Its random numbers come from a list that may hold anything, so what
    is proved holds for every outcome. */
module Generator {
  import opened Instructions
  import opened ProcessSpec
  import opened ProcessClass
  import opened Draws

  const MAX_FOR_DEPTH: nat := 3

  /** The heaviest command: five repeats of three commands, at each level. */
  function MaxWeight(depth: nat): nat {
    if depth == 0 then 1 else 15 * MaxWeight(depth - 1)
  }

  function NestingOne(i: Instruction): nat
    decreases i, 0
  {
    match i
    case Atom(_) => 0
    case For(body, _) => 1 + Nesting(body)
  }

  /** The deepest nesting of FORs in a list. */
  function Nesting(list: seq<Instruction>): nat
    decreases list, 1
  {
    if list == [] then 0
    else
      var first, others := NestingOne(list[0]), Nesting(list[1..]);
      if first > others then first else others
  }

  /** What is drawn is well-formed, nested within the depth, and no longer than the heaviest command. */
  lemma {:induction false} DrawnFacts(c: Instruction, depth: nat)
    requires Drawn(c, depth)
    ensures WellFormedOne(c) && NestingOne(c) <= depth
    ensures 1 <= |UnrollOne(c)| <= MaxWeight(depth)
    decreases c, 0
  {
    hide PoolAtomic;
    LevelWeight(depth);
    if c.For? {
      DrawnListFacts(c.body, depth - 1);
      RepeatLength(Unroll(c.body), c.repeats);
      hide Unroll, MaxWeight;
      AtMost(|c.body|, MaxWeight(depth - 1));
      LoopWeight(c.repeats, |Unroll(c.body)|, MaxWeight(depth - 1));
      assert MaxWeight(depth) == 15 * MaxWeight(depth - 1) by { NextLevel(depth); }
    }
  }

  lemma {:induction false} DrawnListFacts(list: seq<Instruction>, depth: nat)
    requires forall k :: 0 <= k < |list| ==> Drawn(list[k], depth)
    ensures WellFormed(list) && Nesting(list) <= depth
    ensures |list| <= |Unroll(list)| <= |list| * MaxWeight(depth)
    decreases list, 1
  {
    hide Drawn, UnrollOne, MaxWeight, NestingOne, WellFormedOne;
    if list != [] {
      var tail := list[1..];
      assert forall k :: 0 <= k < |tail| ==> tail[k] == list[k + 1];
      DrawnFacts(list[0], depth);
      DrawnListFacts(tail, depth);
      assert |list| * MaxWeight(depth) == |tail| * MaxWeight(depth) + MaxWeight(depth);
      forall k | 0 <= k < |list| ensures WellFormedOne(list[k]) {
        assert k > 0 ==> list[k] == tail[k - 1];
      }
    }
  }

  lemma NextLevel(depth: nat)
    requires depth > 0
    ensures MaxWeight(depth) == 15 * MaxWeight(depth - 1)
  {
  }

  lemma LevelWeight(depth: nat)
    ensures MaxWeight(depth) >= 1
  {
  }

  lemma AtMost(size: nat, level: nat)
    requires size <= 3
    ensures size * level <= 3 * level
  {
  }

  lemma LoopWeight(repeats: int, bodyWeight: int, level: nat)
    requires 2 <= repeats <= 5 && 1 <= bodyWeight <= 3 * level
    ensures 1 <= repeats * bodyWeight <= 15 * level
  {
    assert repeats * bodyWeight <= 5 * bodyWeight;
  }

  /** Everything that a drawn program runs comes from the pools. */
  lemma {:induction false} DrawnRunsFromPools(list: seq<Instruction>, depth: nat)
    requires forall k :: 0 <= k < |list| ==> Drawn(list[k], depth)
    ensures forall k :: 0 <= k < |Unroll(list)| ==> PoolAtomic(Unroll(list)[k])
    decreases list
  {
    if list != [] {
      var one := UnrollOne(list[0]);
      assert forall k :: 0 <= k < |one| ==> PoolAtomic(one[k]) by {
        assert Drawn(list[0], depth);
        if list[0].For? {
          DrawnRunsFromPools(list[0].body, depth - 1);
          UnrollLoop(list[0].body, list[0].repeats);
          var loop := [list[0]];
          assert loop == [For(list[0].body, list[0].repeats)] && loop[1..] == [] && Unroll(loop) == one + Unroll(loop[1..]) == one;
          forall k | 0 <= k < |one| ensures PoolAtomic(one[k]) {
            assert one[k] == Unroll(list[0].body)[k % |Unroll(list[0].body)|];
          }
        }
      }
      hide PoolAtomic, Drawn, UnrollOne;
      assert forall k :: 0 <= k < |list[1..]| ==> list[1..][k] == list[k + 1];
      DrawnRunsFromPools(list[1..], depth);
    }
  }

  // ---------------------------------------------------------------------------------------------
  // Drawing

  /** The random numbers still to come. */
  class Dice {
    var rolls: seq<int>

    constructor (rolls: seq<int>)
      ensures this.rolls == rolls
    {
      this.rolls := rolls;
    }

    method RandInt(lo: int, hi: int) returns (r: int)
      requires lo <= hi
      modifies this
      ensures lo <= r <= hi && r == Outcome(old(rolls), lo, hi) && rolls == Tail(old(rolls))
    {
      r := if rolls != [] && lo <= rolls[0] <= hi then rolls[0] else lo;
      rolls := Tail(rolls);
    }

    method RandVar() returns (x: string)
      modifies this
      ensures PoolName(x) && x == VarOf(old(rolls)) && rolls == Tail(old(rolls))
    {
      var i := RandInt(0, |POOL| - 1);
      x := POOL[i];
    }

    method RandOperand() returns (op: Operand)
      modifies this
      ensures PoolOperand(op) && (op, rolls) == OperandOf(old(rolls))
    {
      var literal := RandInt(0, 1);
      if literal == 0 {
        var v := RandInt(0, 500);
        return Literal(v);
      }
      var x := RandVar();
      return Variable(x);
    }

    method RandomAtomic(kind: int) returns (a: Atomic)
      requires 0 <= kind <= 4
      modifies this
      ensures PoolAtomic(a) && (a, rolls) == AtomicOf(kind, old(rolls))
    {
      match kind
      case 0 =>
        var plain := RandInt(0, 1);
        if plain == 0 { return Print("", ""); }
        var y := RandVar();
        var x := RandVar();
        return Print("Value of " + y + ": ", x);
      case 1 =>
        var x := RandVar();
        var v := RandInt(0, 1000);
        return Declare(x, v);
      case 2 =>
        var x := RandVar();
        var op2 := RandOperand();
        var op3 := RandOperand();
        return Add(x, op2, op3);
      case 3 =>
        var x := RandVar();
        var op2 := RandOperand();
        var op3 := RandOperand();
        return Subtract(x, op2, op3);
      case _ =>
        var ticks := RandInt(1, 8);
        return Sleep(ticks);
    }

    /** A command of those that can be drawn, with the length of its unrolling as its weight, which the
        depth bounds. */
    method RandomCommand(depthRemaining: nat) returns (c: Instruction, weight: int)
      modifies this
      ensures (c, rolls) == CommandOf(depthRemaining, old(rolls)) && Drawn(c, depthRemaining)
      ensures WellFormedOne(c) && NestingOne(c) <= depthRemaining
      ensures weight == |UnrollOne(c)| && 1 <= weight <= MaxWeight(depthRemaining)
      decreases depthRemaining, 0
    {
      CommandIsDrawn(depthRemaining, rolls);
      DrawnFacts(CommandOf(depthRemaining, rolls).0, depthRemaining);
      hide MaxWeight, Drawn, PoolAtomic, NestingOne, WellFormedOne, AtomicOf, BodyOf, Outcome;
      var kinds := if depthRemaining > 0 then 6 else 5;
      var kind := RandInt(0, kinds - 1);
      if kind <= 4 {
        var a := RandomAtomic(kind);
        return Atom(a), 1;
      }

      var bodySize := RandInt(1, 3);
      var body, bodyWeight := RandomBody(bodySize, depthRemaining - 1);
      var repeats := RandInt(2, 5);
      RepeatLength(Unroll(body), repeats);
      c := For(body, repeats);
      weight := repeats * bodyWeight;
    }

    /** The loop of the FOR case. */
    method RandomBody(bodySize: nat, depthRemaining: nat) returns (body: seq<Instruction>, bodyWeight: int)
      modifies this
      ensures (body, rolls) == BodyOf(depthRemaining, bodySize, [], old(rolls))
      ensures bodyWeight == |Unroll(body)|
      decreases depthRemaining, 1
    {
      hide CommandOf, UnrollOne, Drawn, MaxWeight, NestingOne, WellFormedOne;
      body, bodyWeight := [], 0;
      for i := 0 to bodySize
        invariant BodyOf(depthRemaining, bodySize, [], old(rolls)) ==
                  BodyOf(depthRemaining, bodySize - i, body, rolls)
        invariant bodyWeight == |Unroll(body)|
      {
        var child, childWeight := RandomCommand(depthRemaining);
        UnrollSnoc(body, child);
        body := body + [child];
        bodyWeight := bodyWeight + childWeight;
      }
    }
  }

  // ---------------------------------------------------------------------------------------------
  // Whole programs

  const UINT32: int := 0x1_0000_0000

  type UInt32 = x: nat | x < UINT32

  /** The conversion of an unsigned 32-bit number to a signed one. */
  function AsInt(x: UInt32): int {
    if x <= INT_MAX then x else x - UINT32
  }

  /** The range the generator works with: put in order, and with no zero. */
  function Least(minIns: UInt32, maxIns: UInt32): UInt32 {
    var lo := if maxIns < minIns then maxIns else minIns;
    if lo == 0 then 1 else lo
  }

  function Most(minIns: UInt32, maxIns: UInt32): UInt32 {
    var hi := if maxIns < minIns then minIns else maxIns;
    if hi == 0 then Least(minIns, maxIns) else hi
  }

  lemma MaxWeightAtTop()
    ensures MaxWeight(MAX_FOR_DEPTH) == 3375
  {
    assert MaxWeight(1) == 15 && MaxWeight(2) == 225;
  }

  /** The ranges that pass validation. */
  predicate Validated(minIns: UInt32, maxIns: UInt32) {
    1 <= minIns <= maxIns
  }

  /** The precondition of the random distribution: its lower bound, as an int, is not above its upper. */
  predicate Drawable(minIns: UInt32, maxIns: UInt32) {
    AsInt(Least(minIns, maxIns)) <= AsInt(Most(minIns, maxIns))
  }

  /** The target is in the configured range: between the bounds as they are when they are in order and
      not zero, as validation asks; between the swapped bounds when they are not in order; and a zero
      counts as 1. This is for bounds that fit an int. */
  predicate InRange(minIns: UInt32, maxIns: UInt32, target: int) {
    minIns <= 0x7fff_ffff && maxIns <= 0x7fff_ffff ==>
      && (1 <= minIns <= maxIns ==> minIns <= target <= maxIns)
      && (1 <= maxIns < minIns ==> maxIns <= target <= minIns)
      && (minIns == 0 && 1 <= maxIns ==> 1 <= target <= maxIns)
      && (maxIns == 0 && 1 <= minIns ==> 1 <= target <= minIns)
      && (minIns == 0 && maxIns == 0 ==> target == 1)
  }

  /** Which validated ranges the distribution is defined on: those that lie on one side of the
      largest int. */
  lemma DrawableIff(minIns: UInt32, maxIns: UInt32)
    requires Validated(minIns, maxIns)
    ensures Drawable(minIns, maxIns) <==> (maxIns <= INT_MAX || minIns > INT_MAX)
  {
  }

  /** Two ranges that pass validation and fail. The first is drawn from and gives an empty program;
      the second breaks the precondition of the distribution, so the generator promises nothing. */
  lemma RangesThatFail()
    ensures Validated(0x8000_0000, 0x8000_0000) && Drawable(0x8000_0000, 0x8000_0000)
    ensures Most(0x8000_0000, 0x8000_0000) > INT_MAX && AsInt(Most(0x8000_0000, 0x8000_0000)) < 0
    ensures Validated(1, 0x8000_0000) && !Drawable(1, 0x8000_0000)
  {
  }

  // ---------------------------------------------------------------------------------------------
  // Which programs come out

  /** Commands are drawn until the program is as long as the target. */
  function ProgramOf(target: int, program: seq<Instruction>, rolls: seq<int>): seq<Instruction>
    decreases target - |Unroll(program)|
  {
    if |Unroll(program)| >= target then program
    else
      var (c, more) := CommandOf(MAX_FOR_DEPTH, rolls);
      CommandLengthens(program, rolls);
      ProgramOf(target, program + [c], more)
  }

  lemma CommandLengthens(program: seq<Instruction>, rolls: seq<int>)
    ensures var c := CommandOf(MAX_FOR_DEPTH, rolls).0;
            && Drawn(c, 3)
            && |Unroll(program)| < |Unroll(program + [c])| == |Unroll(program)| + |UnrollOne(c)| <= |Unroll(program)| + 3375
  {
    var c := CommandOf(MAX_FOR_DEPTH, rolls).0;
    CommandIsDrawn(MAX_FOR_DEPTH, rolls);
    DrawnFacts(c, MAX_FOR_DEPTH);
    MaxWeightAtTop();
    UnrollSnoc(program, c);
    hide CommandOf, Unroll, UnrollOne, Drawn;
  }

  /** The outcome of the generator: the program and the target it drew. */
  function Generated(minIns: UInt32, maxIns: UInt32, rolls: seq<int>): (seq<Instruction>, int)
    requires Drawable(minIns, maxIns)
  {
    var target := Outcome(rolls, AsInt(Least(minIns, maxIns)), AsInt(Most(minIns, maxIns)));
    (ProgramOf(target, [], Tail(rolls)), target)
  }

  /** A program of drawn commands that is just as long as the target: without its last command it would
      be too short. */
  ghost predicate JustLongEnough(program: seq<Instruction>, target: int) {
    && (forall k :: 0 <= k < |program| ==> Drawn(program[k], 3))
    && program != [] && |Unroll(program[..|program| - 1])| < target <= |Unroll(program)|
  }

  lemma {:induction false} ProgramIsJustLongEnough(target: int, program: seq<Instruction>, rolls: seq<int>)
    requires forall k :: 0 <= k < |program| ==> Drawn(program[k], 3)
    requires program != [] ==> |Unroll(program[..|program| - 1])| < target
    ensures var all := ProgramOf(target, program, rolls);
            && (target > 0 ==> JustLongEnough(all, target) && |Unroll(all)| <= target + 3374)
            && (target <= 0 && program == [] ==> all == [])
    decreases target - |Unroll(program)|
  {
    hide Drawn, CommandOf;
    if |Unroll(program)| < target {
      var (c, more) := CommandOf(MAX_FOR_DEPTH, rolls);
      CommandLengthens(program, rolls);
      assert (program + [c])[..|program|] == program;
      hide Unroll;
      ProgramIsJustLongEnough(target, program + [c], more);
    } else if program != [] {
      LastCommand(program);
    }
  }

  lemma LastCommand(program: seq<Instruction>)
    requires program != [] && forall k :: 0 <= k < |program| ==> Drawn(program[k], 3)
    ensures |Unroll(program)| <= |Unroll(program[..|program| - 1])| + 3375
  {
    var n := |program| - 1;
    assert program == program[..n] + [program[n]];
    UnrollSnoc(program[..n], program[n]);
    DrawnFacts(program[n], 3);
    MaxWeightAtTop();
  }

  lemma {:induction false} ProgramScript(target: int, whole: seq<Instruction>, k: nat)
    requires JustLongEnough(whole, target) && k <= |whole|
    ensures ProgramOf(target, whole[..k], ScriptOfList(whole[k..])) == whole
    decreases |whole| - k
  {
    hide Drawn, CommandOf, ScriptOf;
    if k == |whole| {
      assert whole[..k] == whole;
    } else {
      var rest := whole[k..];
      assert whole[..k] == whole[..|whole| - 1][..k];
      PrefixIsShorter(whole[..|whole| - 1], k);
      assert rest[0] == whole[k] && rest[1..] == whole[k + 1..];
      CommandScript(whole[k], 3, ScriptOfList(whole[k + 1..]));
      assert whole[..k] + [whole[k]] == whole[..k + 1];
      hide Unroll;
      ProgramScript(target, whole, k + 1);
    }
  }

  /** The generator is exact: for a range that passes validation and fits an int, a program can come out
      if and only if its commands can be drawn and it is just as long as some target in the range. */
  lemma GeneratesExactly(minIns: UInt32, maxIns: UInt32, program: seq<Instruction>, target: int)
    requires Validated(minIns, maxIns) && maxIns <= 0x7fff_ffff
    ensures Drawable(minIns, maxIns)
    ensures (exists rolls :: Generated(minIns, maxIns, rolls) == (program, target)) <==>
            minIns <= target <= maxIns && JustLongEnough(program, target)
  {
    hide JustLongEnough, ProgramOf;
    if rolls :| Generated(minIns, maxIns, rolls) == (program, target) {
      ProgramIsJustLongEnough(target, [], Tail(rolls));
    }
    if minIns <= target <= maxIns && JustLongEnough(program, target) {
      var rolls := [target] + ScriptOfList(program);
      TailOf(target, ScriptOfList(program));
      assert program[..0] == [] && program[0..] == program;
      ProgramScript(target, program, 0);
      assert Generated(minIns, maxIns, rolls) == (program, target);
    }
  }

  /** A program that is just as long as the target it draws: without its last command it would be too
      short, and it is at most one command longer. The precondition is that of the random
      distribution. The target lies in the configured range, where bounds in the wrong order are
      swapped and zeros become 1, if and only if the range fits a signed int; otherwise the target is
      negative and the program empty. */
  method GenerateProgram(dice: Dice, minIns: UInt32, maxIns: UInt32) returns (program: seq<Instruction>, target: int)
    requires Drawable(minIns, maxIns)
    modifies dice
    ensures (program, target) == Generated(minIns, maxIns, old(dice.rolls))
    ensures WellFormed(program) && Nesting(program) <= 3
    ensures forall k :: 0 <= k < |program| ==> Drawn(program[k], 3)
    ensures InRange(minIns, maxIns, target)
    ensures minIns <= 0x7fff_ffff && maxIns <= 0x7fff_ffff ==>
              JustLongEnough(program, target) && |Unroll(program)| <= target + 3374
    ensures minIns > 0x7fff_ffff || maxIns > 0x7fff_ffff ==> program == []
  {
    hide Drawn, CommandOf;
    var lo, hi := minIns, maxIns;
    if hi < lo { lo, hi := hi, lo; }
    if lo == 0 { lo := 1; }
    if hi == 0 { hi := lo; }

    target := dice.RandInt(AsInt(lo), AsInt(hi));
    ProgramIsJustLongEnough(target, [], dice.rolls);
    program := [];
    var total := 0;
    while total < target
      invariant total == |Unroll(program)|
      invariant ProgramOf(target, [], Tail(old(dice.rolls))) == ProgramOf(target, program, dice.rolls)
      decreases target - total
    {
      CommandLengthens(program, dice.rolls);
      var c, weight := dice.RandomCommand(MAX_FOR_DEPTH);
      program := program + [c];
      total := total + weight;
    }
    DrawnListFacts(program, 3);
  }

  /** The process that comes out. Its line count keeps the bounds of the program whenever the range
      fits an int, also where it is clamped; with a range that leaves room for the last command it is
      the length of the program. */
  method Generate(dice: Dice, name: string, pid: int, minIns: UInt32, maxIns: UInt32, now: int)
    returns (p: Process, target: int)
    requires Drawable(minIns, maxIns)
    modifies dice
    ensures p.Valid() && fresh(p)
    ensures p.View().pid == pid && p.View().name == name && p.View().createdAt == now
    ensures p.View().code == Unroll(p.program) && (p.program, target) == Generated(minIns, maxIns, old(dice.rolls))
    ensures InRange(minIns, maxIns, target)
    ensures minIns <= 0x7fff_ffff && maxIns <= 0x7fff_ffff ==>
              && target <= p.View().total <= |p.View().code| <= target + 3374
              && p.View().state == READY
    ensures |p.View().code| <= 0x7fff_ffff ==> p.View().total == |p.View().code|
    ensures |p.View().code| > 0x7fff_ffff ==> p.View().total == 0x7fff_ffff
    ensures minIns > 0x7fff_ffff || maxIns > 0x7fff_ffff ==> p.View().state == FINISHED && p.View().total == 0
  {
    var program;
    program, target := GenerateProgram(dice, minIns, maxIns);
    p := new Process(pid, name, program, now);
  }
}
