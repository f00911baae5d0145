/** The instruction set of a process and what one instruction means.

    A program is a list of instructions; FOR nests a list. `Unroll` is the simple meaning of a
    program: the flat list of atomic instructions that it runs. The effect of an atomic on the
    process memory is given twice: `Effect` follows the code, where reading a variable declares it,
    and `Meaning` is a reference that never declares what it only reads. */
module Instructions {
  import opened Arithmetic

  const UINT16_MAX := 0xffff
  const INT_MAX := 0x7fff_ffff

  type UInt16 = x: nat | x <= UINT16_MAX
  type UInt8 = x: nat | x <= 0xff

  datatype Operand = Literal(value: UInt16) | Variable(name: string)

  datatype Atomic =
    | Print(message: string, varRef: string)
    | Declare(name: string, initial: UInt16)
    | Add(target: string, op2: Operand, op3: Operand)
    | Subtract(target: string, op2: Operand, op3: Operand)
    | Sleep(ticks: UInt8)

  datatype Instruction = Atom(atom: Atomic) | For(body: seq<Instruction>, repeats: int)

  // ---------------------------------------------------------------------------------------------
  // Unrolling

  function Repeat<T>(s: seq<T>, n: int): seq<T>
    decreases if n <= 0 then 0 else n
  {
    if n <= 0 then [] else s + Repeat(s, n - 1)
  }

  function UnrollOne(i: Instruction): seq<Atomic>
    decreases i, 0
  {
    match i
    case Atom(a) => [a]
    case For(body, n) => Repeat(Unroll(body), n)
  }

  function Unroll(list: seq<Instruction>): seq<Atomic>
    decreases list, 1
  {
    if list == [] then [] else UnrollOne(list[0]) + Unroll(list[1..])
  }

  lemma {:induction false} UnrollConcat(a: seq<Instruction>, b: seq<Instruction>)
    ensures Unroll(a + b) == Unroll(a) + Unroll(b)
  {
    if a == [] {
      assert a + b == b;
    } else {
      hide UnrollOne;
      UnrollConcat(a[1..], b);
      assert (a + b)[1..] == a[1..] + b;
      var one, x, y := UnrollOne(a[0]), Unroll(a[1..]), Unroll(b);
      assert Unroll(a + b) == one + (x + y) == (one + x) + y;
    }
  }

  lemma {:induction false} UnrollSnoc(list: seq<Instruction>, i: Instruction)
    ensures Unroll(list + [i]) == Unroll(list) + UnrollOne(i)
  {
    UnrollConcat(list, [i]);
    assert [i][1..] == [];
    assert Unroll([i]) == UnrollOne(i) + Unroll([]);
  }

  lemma {:induction false} RepeatLength<T>(s: seq<T>, n: int)
    ensures |Repeat(s, n)| == if n <= 0 then 0 else n * |s|
    decreases if n <= 0 then 0 else n
  {
    if n > 0 {
      RepeatLength(s, n - 1);
      assert |Repeat(s, n)| == |s| + |Repeat(s, n - 1)|;
      if n > 1 {
        assert (n - 1) * |s| + |s| == n * |s|;
      }
    }
  }

  /** Without loops, unrolling is the identity. */
  lemma {:induction false} UnrollAtoms(list: seq<Instruction>)
    requires forall k :: 0 <= k < |list| ==> list[k].Atom?
    ensures |Unroll(list)| == |list|
    ensures forall k :: 0 <= k < |list| ==> Unroll(list)[k] == list[k].atom
  {
    if list != [] {
      UnrollAtoms(list[1..]);
      forall k | 0 <= k < |list| ensures Unroll(list)[k] == list[k].atom {
        assert k > 0 ==> list[1..][k - 1] == list[k];
      }
    }
  }

  /** Position `i` of a loop is position `i` modulo the length of its unrolled body. */
  lemma {:induction false} RepeatAt<T>(s: seq<T>, n: int, i: nat)
    requires n > 0 && i < |Repeat(s, n)|
    ensures |s| > 0 && Repeat(s, n)[i] == s[i % |s|]
    decreases n
  {
    var once, more := s, Repeat(s, n - 1);
    assert Repeat(s, n) == once + more;
    if i < |s| {
      SmallModulo(i, |s|);
    } else {
      assert n > 1;
      RepeatAt(s, n - 1, i - |s|);
      ModuloBack(i, |s|);
    }
  }

  /** A loop runs its body once after the other: `n` times as long, and the same at corresponding
      positions of every pass. */
  lemma UnrollLoop(body: seq<Instruction>, n: int)
    ensures |Unroll([For(body, n)])| == if n <= 0 then 0 else n * |Unroll(body)|
    ensures forall i: nat :: i < |Unroll([For(body, n)])| ==>
              |Unroll(body)| > 0 && Unroll([For(body, n)])[i] == Unroll(body)[i % |Unroll(body)|]
  {
    var loop := [For(body, n)];
    assert loop[1..] == [];
    assert Unroll(loop) == Repeat(Unroll(body), n);
    RepeatLength(Unroll(body), n);
    forall i: nat | i < |Unroll(loop)|
      ensures |Unroll(body)| > 0 && Unroll(loop)[i] == Unroll(body)[i % |Unroll(body)|]
    {
      RepeatAt(Unroll(body), n, i);
    }
  }

  /** FOR repeats are never negative: the generator draws them from 2..5. */
  predicate WellFormedOne(i: Instruction)
    decreases i, 0
  {
    i.For? ==> 0 <= i.repeats <= INT_MAX && WellFormed(i.body)
  }

  predicate WellFormed(list: seq<Instruction>)
    decreases list, 1
  {
    forall k :: 0 <= k < |list| ==> WellFormedOne(list[k])
  }

  // ---------------------------------------------------------------------------------------------
  // Memory

  datatype Memory = Memory(vars: map<string, UInt16>, log: seq<string>)

  const EMPTY := Memory(map[], [])

  function Lookup(vars: map<string, UInt16>, x: string): UInt16 {
    if x in vars then vars[x] else 0
  }

  /** Reading a variable declares it as 0 when it is missing. */
  function Touch(vars: map<string, UInt16>, x: string): map<string, UInt16> {
    if x in vars then vars else vars[x := 0]
  }

  function TouchOperand(vars: map<string, UInt16>, op: Operand): map<string, UInt16> {
    match op
    case Literal(_) => vars
    case Variable(x) => Touch(vars, x)
  }

  function Value(vars: map<string, UInt16>, op: Operand): UInt16 {
    match op
    case Literal(v) => v
    case Variable(x) => Lookup(vars, x)
  }

  function Decimal(n: nat): string {
    if n < 10 then [('0' as int + n) as char] else Decimal(n / 10) + [('0' as int + n % 10) as char]
  }

  predicate IsDigit(c: char) {
    '0' <= c <= '9'
  }

  function Reading(s: string): int {
    if s == "" then 0 else 10 * Reading(s[..|s| - 1]) + (s[|s| - 1] as int - '0' as int)
  }

  /** Printed numbers read back as themselves: all digits, and no leading zero but in "0". */
  lemma {:induction false} DecimalReadsBack(n: nat)
    ensures Reading(Decimal(n)) == n
    ensures Decimal(n) != "" && (forall k :: 0 <= k < |Decimal(n)| ==> IsDigit(Decimal(n)[k]))
    ensures n > 0 ==> Decimal(n)[0] != '0'
    decreases n
  {
    if n < 10 {
      assert Decimal(n)[..0] == "";
    } else {
      DecimalReadsBack(n / 10);
      assert Decimal(n)[..|Decimal(n)| - 1] == Decimal(n / 10);
    }
  }

  function Greeting(process: string): string {
    "Hello world from " + process + "!"
  }

  /** The clamps of SUBTRACT, in the order the code takes them; ADD has the upper one only. */
  function Clamp(result: int): UInt16 {
    if result < 0 then 0 else if result > UINT16_MAX then UINT16_MAX else result
  }

  function ClampAbove(result: nat): UInt16 {
    if result > UINT16_MAX then UINT16_MAX else result
  }

  /** What `execute` does to the memory of the process called `process`. */
  function Effect(process: string, m: Memory, a: Atomic): Memory {
    match a
    case Print(message, varRef) =>
      if message == "" && varRef == "" then
        m.(log := m.log + [Greeting(process)])
      else if varRef == "" then
        m.(log := m.log + [message])
      else
        Memory(Touch(m.vars, varRef), m.log + [message + Decimal(Lookup(m.vars, varRef))])
    case Declare(x, v) => m.(vars := m.vars[x := v])
    case Add(x, op2, op3) =>
      var vars := TouchOperand(TouchOperand(m.vars, op2), op3);
      m.(vars := vars[x := ClampAbove(Value(m.vars, op2) + Value(m.vars, op3))])
    case Subtract(x, op2, op3) =>
      var vars := TouchOperand(TouchOperand(m.vars, op2), op3);
      m.(vars := vars[x := Clamp(Value(m.vars, op2) - Value(m.vars, op3))])
    case Sleep(_) => m
  }

  // ---------------------------------------------------------------------------------------------
  // The reference meaning: reads leave the store alone, ADD is min(65535, a + b) and SUBTRACT is
  // max(0, a - b).

  function Min(a: int, b: int): int {
    if a < b then a else b
  }

  function Max(a: int, b: int): int {
    if a < b then b else a
  }

  function Reference(process: string, m: Memory, a: Atomic): Memory {
    match a
    case Print(message, varRef) =>
      var line := if message + varRef == "" then Greeting(process)
                  else message + if varRef == "" then "" else Decimal(Lookup(m.vars, varRef));
      m.(log := m.log + [line])
    case Declare(x, v) => m.(vars := m.vars[x := v])
    case Add(x, op2, op3) => m.(vars := m.vars[x := Min(65535, Value(m.vars, op2) + Value(m.vars, op3))])
    case Subtract(x, op2, op3) => m.(vars := m.vars[x := Max(0, Value(m.vars, op2) - Value(m.vars, op3))])
    case Sleep(_) => m
  }

  /** The meaning of a run of atomics: the reference effects folded over an empty memory. */
  function Meaning(process: string, run: seq<Atomic>): Memory {
    if run == [] then EMPTY
    else Reference(process, Meaning(process, run[..|run| - 1]), run[|run| - 1])
  }

  ghost predicate ReadAlike(vars: map<string, UInt16>, ref: map<string, UInt16>) {
    forall x :: Lookup(vars, x) == Lookup(ref, x)
  }

  /** Nobody can tell the memories apart by reading variables or the print log. */
  ghost predicate Indistinguishable(m: Memory, n: Memory) {
    m.log == n.log && ReadAlike(m.vars, n.vars)
  }

  lemma EffectMatchesReference(process: string, m: Memory, n: Memory, a: Atomic)
    requires Indistinguishable(m, n)
    ensures Indistinguishable(Effect(process, m, a), Reference(process, n, a))
  {
    match a
    case Print(message, varRef) =>
      assert Lookup(m.vars, varRef) == Lookup(n.vars, varRef);
      OperandsAgree(m.vars, n.vars, Variable(varRef), Literal(0));
      assert message + "" == message;
    case Declare(x, v) => StoreAgrees(m.vars, n.vars, x, v);
    case Add(x, op2, op3) =>
      OperandsAgree(m.vars, n.vars, op2, op3);
      var sum := ClampAbove(Value(m.vars, op2) + Value(m.vars, op3));
      StoreAgrees(TouchOperand(TouchOperand(m.vars, op2), op3), n.vars, x, sum);
    case Subtract(x, op2, op3) =>
      OperandsAgree(m.vars, n.vars, op2, op3);
      var difference := Clamp(Value(m.vars, op2) - Value(m.vars, op3));
      StoreAgrees(TouchOperand(TouchOperand(m.vars, op2), op3), n.vars, x, difference);
    case Sleep(_) =>
  }

  lemma StoreAgrees(vars: map<string, UInt16>, ref: map<string, UInt16>, x: string, v: UInt16)
    requires ReadAlike(vars, ref)
    ensures ReadAlike(vars[x := v], ref[x := v])
  {
    var vars', ref' := vars[x := v], ref[x := v];
    forall y ensures Lookup(vars', y) == Lookup(ref', y) {
      assert Lookup(vars, y) == Lookup(ref, y);
    }
  }

  lemma OperandsAgree(vars: map<string, UInt16>, ref: map<string, UInt16>, op2: Operand, op3: Operand)
    requires ReadAlike(vars, ref)
    ensures Value(vars, op2) == Value(ref, op2) && Value(vars, op3) == Value(ref, op3)
    ensures ReadAlike(TouchOperand(TouchOperand(vars, op2), op3), ref)
  {
    assert op2.Variable? ==> Lookup(vars, op2.name) == Lookup(ref, op2.name);
    assert op3.Variable? ==> Lookup(vars, op3.name) == Lookup(ref, op3.name);
    var once := TouchOperand(vars, op2);
    forall y ensures Lookup(TouchOperand(once, op3), y) == Lookup(ref, y) {
      assert Lookup(vars, y) == Lookup(ref, y);
    }
  }

  lemma MeaningSnoc(process: string, run: seq<Atomic>, k: nat)
    requires k < |run|
    ensures Meaning(process, run[..k + 1]) == Reference(process, Meaning(process, run[..k]), run[k])
  {
    assert run[..k + 1][..k] == run[..k];
  }

  // ---------------------------------------------------------------------------------------------
  // Sleeping

  /** For how many ticks an atomic takes its process off the core. */
  function SleepTicks(a: Atomic): nat {
    if a.Sleep? then a.ticks else 0
  }

  function SleepSum(run: seq<Atomic>): nat {
    if run == [] then 0 else SleepTicks(run[0]) + SleepSum(run[1..])
  }

  /** True when a run ends with a SLEEP that really sleeps. */
  predicate EndsAsleep(run: seq<Atomic>) {
    run != [] && SleepTicks(run[|run| - 1]) > 0
  }
}
