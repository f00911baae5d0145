/** What the generator makes of its random numbers. The numbers are a list that may hold anything, so a
    function of the list covers every outcome, and a list for each program shows that none is missing. */
module Draws {
  import opened Instructions

  // ---------------------------------------------------------------------------------------------
  // Random numbers

  /** The next number, if it lies in the range; otherwise the lower end. */
  function Outcome(rolls: seq<int>, lo: int, hi: int): (r: int)
    requires lo <= hi
    ensures lo <= r <= hi
  {
    if rolls != [] && lo <= rolls[0] <= hi then rolls[0] else lo
  }

  function Tail(rolls: seq<int>): seq<int> {
    if rolls == [] then [] else rolls[1..]
  }

  const POOL := ["x", "y", "z", "a", "b"]

  function VarOf(rolls: seq<int>): string {
    POOL[Outcome(rolls, 0, 4)]
  }

  function OperandOf(rolls: seq<int>): (Operand, seq<int>) {
    if Outcome(rolls, 0, 1) == 0 then (Literal(Outcome(Tail(rolls), 0, 500)), Tail(Tail(rolls)))
    else (Variable(VarOf(Tail(rolls))), Tail(Tail(rolls)))
  }

  function AtomicOf(kind: int, rolls: seq<int>): (Atomic, seq<int>) {
    var more := Tail(rolls);
    if kind == 0 then
      if Outcome(rolls, 0, 1) == 0 then (Print("", ""), more)
      else (Print("Value of " + VarOf(more) + ": ", VarOf(Tail(more))), Tail(Tail(more)))
    else if kind == 1 then (Declare(VarOf(rolls), Outcome(more, 0, 1000)), Tail(more))
    else if kind == 2 then
      var (op2, more2) := OperandOf(more);
      var (op3, more3) := OperandOf(more2);
      (Add(VarOf(rolls), op2, op3), more3)
    else if kind == 3 then
      var (op2, more2) := OperandOf(more);
      var (op3, more3) := OperandOf(more2);
      (Subtract(VarOf(rolls), op2, op3), more3)
    else (Sleep(Outcome(rolls, 1, 8)), more)
  }

  function CommandOf(depth: nat, rolls: seq<int>): (Instruction, seq<int>)
    decreases depth, 0, 0
  {
    var kind, more := Outcome(rolls, 0, if depth > 0 then 5 else 4), Tail(rolls);
    if kind <= 4 then
      var (a, more1) := AtomicOf(kind, more);
      (Atom(a), more1)
    else
      var (body, more1) := BodyOf(depth - 1, Outcome(more, 1, 3), [], Tail(more));
      (For(body, Outcome(more1, 2, 5)), Tail(more1))
  }

  /** `size` more commands behind those that are there. */
  function BodyOf(depth: nat, size: nat, body: seq<Instruction>, rolls: seq<int>): (seq<Instruction>, seq<int>)
    decreases depth, 1, size
  {
    if size == 0 then (body, rolls)
    else
      var (c, more) := CommandOf(depth, rolls);
      BodyOf(depth, size - 1, body + [c], more)
  }

  // ---------------------------------------------------------------------------------------------
  // What can come out

  predicate PoolName(x: string) {
    x in ["x", "y", "z", "a", "b"]
  }

  predicate PoolOperand(op: Operand) {
    match op
    case Literal(v) => v <= 500
    case Variable(x) => PoolName(x)
  }

  predicate PoolAtomic(a: Atomic) {
    match a
    case Print(message, x) =>
      || (message == "" && x == "")
      || (PoolName(x) && exists y :: y in POOL && message == "Value of " + y + ": ")
    case Declare(x, v) => PoolName(x) && v <= 1000
    case Add(x, op2, op3) => PoolName(x) && PoolOperand(op2) && PoolOperand(op3)
    case Subtract(x, op2, op3) => PoolName(x) && PoolOperand(op2) && PoolOperand(op3)
    case Sleep(ticks) => 1 <= ticks <= 8
  }

  /** The commands that can be drawn with `depth` levels of FOR left. */
  predicate Drawn(c: Instruction, depth: nat)
    decreases c
  {
    match c
    case Atom(a) => PoolAtomic(a)
    case For(body, n) =>
      depth > 0 && 1 <= |body| <= 3 && 2 <= n <= 5 && forall k :: 0 <= k < |body| ==> Drawn(body[k], depth - 1)
  }

  lemma AtomicIsFromPools(kind: int, rolls: seq<int>)
    ensures PoolAtomic(AtomicOf(kind, rolls).0)
  {
  }

  lemma {:induction false} CommandIsDrawn(depth: nat, rolls: seq<int>)
    ensures Drawn(CommandOf(depth, rolls).0, depth)
    decreases depth, 0, 0
  {
    var kind, more := Outcome(rolls, 0, if depth > 0 then 5 else 4), Tail(rolls);
    hide PoolAtomic, AtomicOf;
    if kind <= 4 {
      AtomicIsFromPools(kind, more);
    } else {
      BodyIsDrawn(depth - 1, Outcome(more, 1, 3), [], Tail(more));
    }
  }

  lemma {:induction false} BodyIsDrawn(depth: nat, size: nat, body: seq<Instruction>, rolls: seq<int>)
    requires forall k :: 0 <= k < |body| ==> Drawn(body[k], depth)
    ensures var all := BodyOf(depth, size, body, rolls).0;
            |all| == |body| + size && forall k :: 0 <= k < |all| ==> Drawn(all[k], depth)
    decreases depth, 1, size
  {
    if size > 0 {
      hide Drawn;
      CommandIsDrawn(depth, rolls);
      var (c, more) := CommandOf(depth, rolls);
      BodyIsDrawn(depth, size - 1, body + [c], more);
    }
  }

  // ---------------------------------------------------------------------------------------------
  // Nothing is missing: the numbers that draw a given command

  function ScriptOfVar(x: string): int {
    if x == "x" then 0 else if x == "y" then 1 else if x == "z" then 2 else if x == "a" then 3 else 4
  }

  function ScriptOfOperand(op: Operand): seq<int> {
    match op
    case Literal(v) => [0, v]
    case Variable(x) => [1, ScriptOfVar(x)]
  }

  function ScriptOfAtomic(a: Atomic): seq<int> {
    match a
    case Print(message, x) =>
      if message == "" then [0, 0]
      else [0, 1, if |message| > 9 then ScriptOfVar(message[9..10]) else 0, ScriptOfVar(x)]
    case Declare(x, v) => [1, ScriptOfVar(x), v]
    case Add(x, op2, op3) => [2, ScriptOfVar(x)] + ScriptOfOperand(op2) + ScriptOfOperand(op3)
    case Subtract(x, op2, op3) => [3, ScriptOfVar(x)] + ScriptOfOperand(op2) + ScriptOfOperand(op3)
    case Sleep(ticks) => [4, ticks]
  }

  function ScriptOf(c: Instruction): seq<int>
    decreases c, 0
  {
    match c
    case Atom(a) => ScriptOfAtomic(a)
    case For(body, n) => [5, |body|] + ScriptOfList(body) + [n]
  }

  function ScriptOfList(list: seq<Instruction>): seq<int>
    decreases list, 1
  {
    if list == [] then [] else ScriptOf(list[0]) + ScriptOfList(list[1..])
  }

  lemma VarScript(x: string, rest: seq<int>)
    requires PoolName(x)
    ensures VarOf([ScriptOfVar(x)] + rest) == x && Tail([ScriptOfVar(x)] + rest) == rest
  {
  }

  lemma TailOf(first: int, rest: seq<int>)
    ensures Tail([first] + rest) == rest
    ensures forall lo, hi :: lo <= first <= hi ==> Outcome([first] + rest, lo, hi) == first
  {
  }

  lemma OperandScript(op: Operand, rest: seq<int>)
    requires PoolOperand(op)
    ensures OperandOf(ScriptOfOperand(op) + rest) == (op, rest)
  {
    var flag, number := ScriptOfOperand(op)[0], ScriptOfOperand(op)[1];
    assert ScriptOfOperand(op) + rest == [flag] + ([number] + rest);
    TailOf(flag, [number] + rest);
    TailOf(number, rest);
    if op.Variable? {
      VarScript(op.name, rest);
    }
  }

  lemma PrintScript(message: string, x: string, rest: seq<int>)
    requires PoolAtomic(Print(message, x))
    ensures var script := ScriptOfAtomic(Print(message, x));
            AtomicOf(0, script[1..] + rest) == (Print(message, x), rest)
  {
    var script := ScriptOfAtomic(Print(message, x));
    if message == "" && x == "" {
      assert script[1..] + rest == [0] + rest;
      TailOf(0, rest);
    } else {
      var y :| y in POOL && message == "Value of " + y + ": ";
      assert |"Value of "| == 9 && message[9..10] == y;
      var last := [ScriptOfVar(x)] + rest;
      assert script[1..] + rest == [1] + ([ScriptOfVar(y)] + last);
      TailOf(1, [ScriptOfVar(y)] + last);
      VarScript(y, last);
      VarScript(x, rest);
    }
  }

  lemma OperandsScript(x: string, op2: Operand, op3: Operand, rest: seq<int>)
    requires PoolName(x) && PoolOperand(op2) && PoolOperand(op3)
    ensures var rolls := [ScriptOfVar(x)] + ScriptOfOperand(op2) + ScriptOfOperand(op3) + rest;
            && VarOf(rolls) == x
            && OperandOf(Tail(rolls)).0 == op2
            && OperandOf(OperandOf(Tail(rolls)).1) == (op3, rest)
  {
    var s2, s3 := ScriptOfOperand(op2), ScriptOfOperand(op3);
    assert [ScriptOfVar(x)] + s2 + s3 + rest == [ScriptOfVar(x)] + (s2 + (s3 + rest));
    VarScript(x, s2 + (s3 + rest));
    OperandScript(op2, s3 + rest);
    OperandScript(op3, rest);
  }

  function KindOf(a: Atomic): int {
    match a
    case Print(_, _) => 0
    case Declare(_, _) => 1
    case Add(_, _, _) => 2
    case Subtract(_, _, _) => 3
    case Sleep(_) => 4
  }

  lemma AtomicScript(a: Atomic, rest: seq<int>)
    requires PoolAtomic(a)
    ensures ScriptOfAtomic(a) != [] && ScriptOfAtomic(a)[0] == KindOf(a)
    ensures AtomicOf(KindOf(a), ScriptOfAtomic(a)[1..] + rest) == (a, rest)
  {
    var script := ScriptOfAtomic(a)[1..];
    match a
    case Print(message, x) => PrintScript(message, x, rest);
    case Declare(x, v) =>
      assert script + rest == [ScriptOfVar(x)] + ([v] + rest);
      VarScript(x, [v] + rest);
      TailOf(v, rest);
    case Add(x, op2, op3) =>
      assert script == [ScriptOfVar(x)] + ScriptOfOperand(op2) + ScriptOfOperand(op3);
      OperandsScript(x, op2, op3, rest);
    case Subtract(x, op2, op3) =>
      assert script == [ScriptOfVar(x)] + ScriptOfOperand(op2) + ScriptOfOperand(op3);
      OperandsScript(x, op2, op3, rest);
    case Sleep(ticks) =>
      assert script + rest == [ticks] + rest;
      TailOf(ticks, rest);
  }

  /** Every command of the described form can be drawn. */
  lemma {:induction false} CommandScript(c: Instruction, depth: nat, rest: seq<int>)
    requires Drawn(c, depth)
    ensures CommandOf(depth, ScriptOf(c) + rest) == (c, rest)
    decreases c, 0
  {
    hide PoolAtomic, AtomicOf, ScriptOfAtomic, KindOf;
    match c
    case Atom(a) =>
      AtomicScript(a, rest);
      assert 0 <= KindOf(a) <= 4 by { KindsOfAtomics(a); }
      assert ScriptOf(c) + rest == [KindOf(a)] + (ScriptOfAtomic(a)[1..] + rest);
      TailOf(KindOf(a), ScriptOfAtomic(a)[1..] + rest);
    case For(body, n) =>
      var list, end := ScriptOfList(body), [n] + rest;
      assert ScriptOf(c) + rest == [5] + ([|body|] + (list + end));
      TailOf(5, [|body|] + (list + end));
      TailOf(|body|, list + end);
      TailOf(n, rest);
      assert [] + body == body;
      BodyScript(body, depth - 1, [], end);
  }

  lemma KindsOfAtomics(a: Atomic)
    ensures 0 <= KindOf(a) <= 4
  {
  }

  lemma {:induction false} BodyScript(list: seq<Instruction>, depth: nat, body: seq<Instruction>, rest: seq<int>)
    requires forall k :: 0 <= k < |list| ==> Drawn(list[k], depth)
    ensures BodyOf(depth, |list|, body, ScriptOfList(list) + rest) == (body + list, rest)
    decreases list, 1
  {
    hide Drawn, ScriptOf;
    if list == [] {
      assert [] + rest == rest && body + [] == body;
    } else {
      var more := ScriptOfList(list[1..]) + rest;
      assert ScriptOfList(list) + rest == ScriptOf(list[0]) + more;
      CommandScript(list[0], depth, more);
      assert forall k :: 0 <= k < |list[1..]| ==> list[1..][k] == list[k + 1];
      BodyScript(list[1..], depth, body + [list[0]], rest);
      assert (body + [list[0]]) + list[1..] == body + list;
    }
  }
}
