/** What a process shows, told by the history of its run alone: a variable has the value of the last
    write to it, and each PRINT adds one line. No store is involved. */
module History {
  import opened Instructions

  predicate Writes(a: Atomic, x: string) {
    match a
    case Declare(y, _) => x == y
    case Add(y, _, _) => x == y
    case Subtract(y, _, _) => x == y
    case _ => false
  }

  /** What the last write to `x` stored; 0 when there was none. */
  function LastWrite(run: seq<Atomic>, x: string): int
    decreases |run|, 0
  {
    if run == [] then 0
    else
      var before := run[..|run| - 1];
      match run[|run| - 1]
      case Declare(y, v) => if x == y then v else LastWrite(before, x)
      case Add(y, op2, op3) =>
        if x != y then LastWrite(before, x)
        else
          var sum := OperandAfter(before, op2) + OperandAfter(before, op3);
          if sum > 65535 then 65535 else sum
      case Subtract(y, op2, op3) =>
        if x != y then LastWrite(before, x)
        else
          var difference := OperandAfter(before, op2) - OperandAfter(before, op3);
          if difference < 0 then 0 else difference
      case _ => LastWrite(before, x)
  }

  function OperandAfter(run: seq<Atomic>, op: Operand): int
    decreases |run|, 1
  {
    match op
    case Literal(v) => v
    case Variable(x) => LastWrite(run, x)
  }

  lemma {:induction false} LastWriteIsNatural(run: seq<Atomic>, x: string)
    ensures 0 <= LastWrite(run, x) <= 65535
    decreases |run|, 0
  {
    if run != [] {
      var before := run[..|run| - 1];
      LastWriteIsNatural(before, x);
      match run[|run| - 1]
      case Add(y, op2, op3) => OperandsAreNatural(before, op2, op3);
      case Subtract(y, op2, op3) => OperandsAreNatural(before, op2, op3);
      case _ =>
    }
  }

  lemma {:induction false} OperandsAreNatural(run: seq<Atomic>, op2: Operand, op3: Operand)
    ensures 0 <= OperandAfter(run, op2) <= 65535 && 0 <= OperandAfter(run, op3) <= 65535
    decreases |run|, 1
  {
    if op2.Variable? { LastWriteIsNatural(run, op2.name); }
    if op3.Variable? { LastWriteIsNatural(run, op3.name); }
  }

  /** The lines that a run of the process called `process` prints. */
  function Lines(process: string, run: seq<Atomic>): seq<string> {
    if run == [] then []
    else
      var before := run[..|run| - 1];
      Lines(process, before) +
      match run[|run| - 1]
      case Print(message, x) =>
        if message == "" && x == "" then ["Hello world from " + process + "!"]
        else if x == "" then [message]
        else
          LastWriteIsNatural(before, x);
          [message + Decimal(LastWrite(before, x))]
      case _ => []
  }

  /** The memory shows what the history of the run says. */
  ghost predicate Shows(m: Memory, process: string, run: seq<Atomic>) {
    && m.log == Lines(process, run)
    && forall x :: (if x in m.vars then m.vars[x] else 0) == LastWrite(run, x)
  }

  // ---------------------------------------------------------------------------------------------
  // The history is the meaning

  lemma OperandIsRead(m: Memory, process: string, run: seq<Atomic>, op: Operand)
    requires Shows(m, process, run)
    ensures Value(m.vars, op) == OperandAfter(run, op)
  {
    if op.Variable? {
      assert (if op.name in m.vars then m.vars[op.name] else 0) == LastWrite(run, op.name);
    }
  }

  lemma ReferenceLog(m: Memory, process: string, run: seq<Atomic>, a: Atomic)
    requires Shows(m, process, run)
    ensures Reference(process, m, a).log == Lines(process, run + [a])
  {
    assert (run + [a])[..|run + [a]| - 1] == run;
    if a.Print? {
      OperandIsRead(m, process, run, Variable(a.varRef));
      assert a.message + "" == a.message;
      hide Decimal, LastWrite;
    } else {
      assert m.log + [] == m.log;
    }
  }

  lemma LastWriteSnoc(run: seq<Atomic>, a: Atomic, x: string)
    ensures !Writes(a, x) ==> LastWrite(run + [a], x) == LastWrite(run, x)
    ensures Writes(a, x) && a.Declare? ==> LastWrite(run + [a], x) == a.initial
    ensures Writes(a, x) && a.Add? ==>
              var sum := OperandAfter(run, a.op2) + OperandAfter(run, a.op3);
              LastWrite(run + [a], x) == if sum > 65535 then 65535 else sum
    ensures Writes(a, x) && a.Subtract? ==>
              var difference := OperandAfter(run, a.op2) - OperandAfter(run, a.op3);
              LastWrite(run + [a], x) == if difference < 0 then 0 else difference
  {
    assert (run + [a])[..|run + [a]| - 1] == run;
  }

  lemma ReferenceStore(m: Memory, process: string, run: seq<Atomic>, a: Atomic, x: string)
    requires Shows(m, process, run)
    ensures var vars := Reference(process, m, a).vars;
            (if x in vars then vars[x] else 0) == LastWrite(run + [a], x)
  {
    assert (if x in m.vars then m.vars[x] else 0) == LastWrite(run, x);
    LastWriteSnoc(run, a, x);
    if a.Add? || a.Subtract? {
      OperandIsRead(m, process, run, a.op2);
      OperandIsRead(m, process, run, a.op3);
    }
    hide Shows, Decimal, Lines, OperandAfter, Value;
  }

  lemma ReferenceShows(m: Memory, process: string, run: seq<Atomic>, a: Atomic)
    requires Shows(m, process, run)
    ensures Shows(Reference(process, m, a), process, run + [a])
  {
    var vars := Reference(process, m, a).vars;
    ReferenceLog(m, process, run, a);
    forall x ensures (if x in vars then vars[x] else 0) == LastWrite(run + [a], x) {
      ReferenceStore(m, process, run, a, x);
    }
    hide Reference, LastWrite, Lines;
  }

  /** The meaning of a run is its history: every variable reads as the last write to it, or as 0 when
      there was none, and the log has one line for each PRINT. */
  lemma {:induction false} MeaningIsHistory(process: string, run: seq<Atomic>)
    ensures Shows(Meaning(process, run), process, run)
  {
    if run != [] {
      var before := run[..|run| - 1];
      MeaningIsHistory(process, before);
      ReferenceShows(Meaning(process, before), process, before, run[|run| - 1]);
      assert before + [run[|run| - 1]] == run;
    }
  }

  lemma ShowsHistory(m: Memory, process: string, run: seq<Atomic>)
    requires Indistinguishable(m, Meaning(process, run))
    ensures Shows(m, process, run)
  {
    MeaningIsHistory(process, run);
    var n := Meaning(process, run);
    forall x ensures (if x in m.vars then m.vars[x] else 0) == LastWrite(run, x) {
      assert Lookup(m.vars, x) == Lookup(n.vars, x);
      assert (if x in n.vars then n.vars[x] else 0) == LastWrite(run, x);
    }
  }

  // ---------------------------------------------------------------------------------------------
  // The last write is the last write

  predicate NobodyWrites(run: seq<Atomic>, x: string) {
    forall k :: 0 <= k < |run| ==> !Writes(run[k], x)
  }

  lemma {:induction false} LaterAtomicsKeep(run: seq<Atomic>, more: seq<Atomic>, x: string)
    requires NobodyWrites(more, x)
    ensures LastWrite(run + more, x) == LastWrite(run, x)
  {
    if more == [] {
      assert run + more == run;
    } else {
      var n := |more| - 1;
      assert (run + more)[..|run + more| - 1] == run + more[..n];
      assert !Writes(more[n], x);
      LaterAtomicsKeep(run, more[..n], x);
    }
  }

  lemma {:induction false} MeaningAppend(process: string, run: seq<Atomic>, a: Atomic)
    ensures Meaning(process, run + [a]) == Reference(process, Meaning(process, run), a)
  {
    assert (run + [a])[..|run|] == run;
  }

  /** A PRINT at the end of a run prints the value that `x` was last declared with, if nobody has
      written to `x` since. */
  lemma PrintsLastDeclared(process: string, before: seq<Atomic>, x: string, v: UInt16, since: seq<Atomic>, message: string)
    requires x != "" && NobodyWrites(since, x)
    ensures var run := before + [Declare(x, v)] + since;
            Meaning(process, run + [Print(message, x)]).log == Meaning(process, run).log + [message + Decimal(v)]
  {
    var declared := before + [Declare(x, v)];
    assert declared[..|declared| - 1] == before;
    LaterAtomicsKeep(declared, since, x);
    PrintsLastWrite(process, declared + since, x, v, message);
  }

  /** It prints 0 if nobody has ever written to `x`. */
  lemma PrintsZeroWithoutWrite(process: string, run: seq<Atomic>, x: string, message: string)
    requires x != "" && NobodyWrites(run, x)
    ensures Meaning(process, run + [Print(message, x)]).log == Meaning(process, run).log + [message + "0"]
  {
    assert Decimal(0) == "0";
    LaterAtomicsKeep([], run, x);
    assert [] + run == run;
    PrintsLastWrite(process, run, x, 0, message);
  }

  lemma PrintsLastWrite(process: string, run: seq<Atomic>, x: string, v: UInt16, message: string)
    requires x != "" && LastWrite(run, x) == v
    ensures Meaning(process, run + [Print(message, x)]).log == Meaning(process, run).log + [message + Decimal(v)]
  {
    MeaningIsHistory(process, run);
    OperandIsRead(Meaning(process, run), process, run, Variable(x));
    MeaningAppend(process, run, Print(message, x));
  }

  // ---------------------------------------------------------------------------------------------
  // One instruction, in terms of the store alone

  /** The operand reads as `n`. */
  predicate ReadsAs(m: Memory, op: Operand, n: int) {
    match op
    case Literal(v) => v == n
    case Variable(x) => if x in m.vars then m.vars[x] == n else n == 0
  }

  /** Two stores that read alike but for `y`, which now holds `n`. Reading declares what was missing. */
  ghost predicate Stored(m: Memory, next: Memory, y: string, n: int) {
    && next.log == m.log
    && y in next.vars && next.vars[y] == n
    && (forall x :: x in m.vars ==> x in next.vars)
    && (forall x :: x in m.vars && x != y ==> next.vars[x] == m.vars[x])
    && (forall x :: x in next.vars && x !in m.vars && x != y ==> next.vars[x] == 0)
  }

  /** ADD stores the sum of what its operands read as, at most 65535; SUBTRACT the difference, at least
      0; DECLARE the literal; and each leaves all other variables as they were. */
  lemma ArithmeticStores(process: string, m: Memory, y: string, op2: Operand, op3: Operand, a: int, b: int)
    requires ReadsAs(m, op2, a) && ReadsAs(m, op3, b)
    ensures Stored(m, Effect(process, m, Add(y, op2, op3)), y, if a + b > 65535 then 65535 else a + b)
    ensures Stored(m, Effect(process, m, Subtract(y, op2, op3)), y, if a < b then 0 else a - b)
    ensures forall v: UInt16 :: Effect(process, m, Declare(y, v)) == Memory(m.vars[y := v], m.log)
  {
  }

  /** PRINT adds one line and changes no value: the greeting, the message, or the message with the
      value of the variable, which is 0, and declared, when it is missing. SLEEP touches nothing. */
  lemma PrintAddsALine(process: string, m: Memory, message: string, x: string)
    ensures Effect(process, m, Print("", "")) == Memory(m.vars, m.log + ["Hello world from " + process + "!"])
    ensures message != "" ==> Effect(process, m, Print(message, "")) == Memory(m.vars, m.log + [message])
    ensures x != "" && x in m.vars ==>
              Effect(process, m, Print(message, x)) == Memory(m.vars, m.log + [message + Decimal(m.vars[x])])
    ensures x != "" && x !in m.vars ==>
              Effect(process, m, Print(message, x)) == Memory(m.vars[x := 0], m.log + [message + "0"])
    ensures forall ticks: UInt8 :: Effect(process, m, Sleep(ticks)) == m
  {
    assert Decimal(0) == "0";
  }

  /** What has just been declared is what is read: by PRINT, by ADD and by SUBTRACT on either side. */
  lemma DeclaredIsRead(process: string, m: Memory, x: string, v: UInt16, y: string, k: UInt16)
    requires x != ""
    ensures var m' := Effect(process, m, Declare(x, v));
            && Effect(process, m', Print("", x)).log == m'.log + [Decimal(v)]
            && ReadsAfter(process, m', Add(y, Variable(x), Literal(k)), y, if v + k > 65535 then 65535 else v + k)
            && ReadsAfter(process, m', Subtract(y, Variable(x), Literal(k)), y, if v < k then 0 else v - k)
            && ReadsAfter(process, m', Subtract(y, Literal(k), Variable(x)), y, if k < v then 0 else k - v)
  {
    var m' := Effect(process, m, Declare(x, v));
    assert x in m'.vars && m'.vars[x] == v;
    assert "" + Decimal(v) == Decimal(v);
    PrintAddsALine(process, m', "", x);
    ArithmeticStores(process, m', y, Variable(x), Literal(k), v, k);
    ArithmeticStores(process, m', y, Literal(k), Variable(x), k, v);
    hide Effect;
  }

  predicate ReadsAfter(process: string, m: Memory, a: Atomic, y: string, n: int) {
    var vars := Effect(process, m, a).vars;
    y in vars && vars[y] == n
  }
}
