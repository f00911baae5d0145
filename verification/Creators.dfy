/** What the creators queue, and which PIDs they hand out. */
module Creators {
  import opened Generator
  import opened Instructions
  import opened ProcessSpec
  import opened SchedulerSpec
  import opened Threads
  import opened Invariant
  import opened Reachable
  import opened Work

  /** A creator that holds a PID queues exactly the process it was asked for: with that PID, the name
      and the arrival time of the draft, the whole drafted program to run, nothing printed and no
      variable. It goes to the end of the queue and to no other place. */
  lemma QueuesTheDraft(s: System, j: nat, pid: int, d: Draft)
    requires j < |s.makers| && s.makers[j] == HasPid(pid) && Admissible(d)
    ensures var t, n := Apply(s, MakerTurn(j, d)), |s.sh.procs|;
            && |t.sh.procs| == n + 1 && t.sh.procs[..n] == s.sh.procs
            && t.sh.ready == s.sh.ready + [n] && t.sh.sleeping == s.sh.sleeping && t.sh.finished == s.sh.finished
            && t.cores == s.cores && t.sh.slots == s.sh.slots && t.makers == s.makers[j := Waiting]
            && var p := t.sh.procs[n];
               && p.pid == pid && p.name == d.name && p.createdAt == d.createdAt
               && p.code == p.rest == Unroll(d.program) && p.total == |Unroll(d.program)|
               && p.state == READY && p.line == 0 && p.sleepRemaining == 0
               && p.memory.vars == map[] && p.memory.log == []
  {
    hide Unroll;
  }

  /** What the factory drafts from a range that passes validation and leaves room for the last command
      is admissible: never empty, and no longer than an int can count. */
  method DraftProgram(dice: Dice, name: string, minIns: UInt32, maxIns: UInt32, now: int) returns (d: Draft)
    requires Validated(minIns, maxIns) && maxIns <= 0x7fff_ffff - 3374
    modifies dice
    ensures Admissible(d) && d.name == name && d.createdAt == now
    ensures minIns <= |Unroll(d.program)| <= maxIns + 3374
  {
    DrawableIff(minIns, maxIns);
    var program, target := GenerateProgram(dice, minIns, maxIns);
    d := Draft(name, program, now);
  }

  // ---------------------------------------------------------------------------------------------
  // PIDs

  /** How many PIDs have been handed out to creators that have not queued their process yet. */
  function Pending(makers: seq<Maker>): nat {
    |set j | 0 <= j < |makers| && makers[j].HasPid?|
  }

  ghost predicate PidUsed(s: System, pid: int) {
    || (exists p :: 0 <= p < |s.sh.procs| && s.sh.procs[p].pid == pid)
    || (exists j :: 0 <= j < |s.makers| && s.makers[j] == HasPid(pid))
  }

  /** PIDs are handed out from 1 on, without gaps. */
  ghost predicate PidsInSequence(s: System) {
    && s.sh.nextPid == 1 + |s.sh.procs| + Pending(s.makers)
    && (forall p :: 0 <= p < |s.sh.procs| ==> 1 <= s.sh.procs[p].pid)
    && (forall j :: 0 <= j < |s.makers| && s.makers[j].HasPid? ==> 1 <= s.makers[j].pid)
    && (forall pid :: 1 <= pid < s.sh.nextPid ==> PidUsed(s, pid))
  }

  lemma PendingUpdate(makers: seq<Maker>, j: nat, m: Maker)
    requires j < |makers|
    ensures Pending(makers[j := m]) ==
            Pending(makers) - (if makers[j].HasPid? then 1 else 0) + if m.HasPid? then 1 else 0
  {
    var others := set i | 0 <= i < |makers| && i != j && makers[i].HasPid?;
    var before := set i | 0 <= i < |makers| && makers[i].HasPid?;
    var next := makers[j := m];
    var after := set i | 0 <= i < |next| && next[i].HasPid?;
    assert before == if makers[j].HasPid? then others + {j} else others;
    assert after == if m.HasPid? then others + {j} else others;
  }

  lemma CoreKeepsPids(cfg: Config, i: nat, sh: Shared, c: Core)
    ensures CoreStep(cfg, i, sh, c).0.nextPid == sh.nextPid
  {
    hide SlotOf, ExecuteNext;
  }

  lemma TickKeepsPids(sh: Shared, t: Ticker)
    ensures TickStep(sh, t).0.nextPid == sh.nextPid
  {
    hide TickSleep, WakeOrder, Snapshot, Those, Others;
  }

  /** Steps that leave the creators, the PIDs and the number of processes alone. */
  lemma OthersKeepPids(s: System, l: Label)
    requires Inv(s) && AdmissibleLabel(l) && !l.MakerTurn?
    ensures var t := Apply(s, l);
            && t.makers == s.makers && t.sh.nextPid == s.sh.nextPid && |t.sh.procs| == |s.sh.procs|
            && forall p :: 0 <= p < |s.sh.procs| ==> t.sh.procs[p].pid == s.sh.procs[p].pid
  {
    hide Inv, CoreStep, TickStep;
    NobodyArrives(s, l);
    if l.TickTurn? {
      TickKeepsPids(s.sh, s.ticker);
    } else if l.i < |s.cores| {
      CoreKeepsPids(s.cfg, l.i, s.sh, s.cores[l.i]);
    }
    forall p | 0 <= p < |s.sh.procs| ensures Apply(s, l).sh.procs[p].pid == s.sh.procs[p].pid {
      FuelStep(s, l, p);
    }
  }

  lemma SequenceKept(s: System, t: System)
    requires PidsInSequence(s)
    requires t.makers == s.makers && t.sh.nextPid == s.sh.nextPid && |t.sh.procs| == |s.sh.procs|
    requires forall p :: 0 <= p < |s.sh.procs| ==> t.sh.procs[p].pid == s.sh.procs[p].pid
    ensures PidsInSequence(t)
  {
    hide Pending;
    forall pid | 1 <= pid < t.sh.nextPid ensures PidUsed(t, pid) {
      assert PidUsed(s, pid);
      if p :| 0 <= p < |s.sh.procs| && s.sh.procs[p].pid == pid {
        assert t.sh.procs[p].pid == pid;
      }
    }
  }

  lemma MakerKeepsSequence(s: System, j: nat, d: Draft)
    requires PidsInSequence(s) && Admissible(d)
    ensures PidsInSequence(Apply(s, MakerTurn(j, d)))
  {
    var t := Apply(s, MakerTurn(j, d));
    if j < |s.makers| {
      PendingUpdate(s.makers, j, t.makers[j]);
      hide Pending, Unroll;
      forall pid | 1 <= pid < t.sh.nextPid ensures PidUsed(t, pid) {
        if pid == s.sh.nextPid {
          assert t.makers[j] == HasPid(pid);
        } else {
          assert PidUsed(s, pid);
          if p :| 0 <= p < |s.sh.procs| && s.sh.procs[p].pid == pid {
            assert t.sh.procs[p].pid == pid;
          } else {
            var i :| 0 <= i < |s.makers| && s.makers[i] == HasPid(pid);
            if i == j {
              assert t.sh.procs[|s.sh.procs|].pid == pid;
            } else {
              assert t.makers[i] == HasPid(pid);
            }
          }
        }
      }
    }
  }

  lemma {:induction false} SequenceInRuns(cfg: Config, makers: nat, schedule: seq<Label>)
    requires AdmissibleSchedule(schedule)
    ensures PidsInSequence(Execute(Boot(cfg, makers), schedule))
  {
    if schedule == [] {
      assert (set j | 0 <= j < |Boot(cfg, makers).makers| && Boot(cfg, makers).makers[j].HasPid?) == {};
    } else {
      hide Inv, PidsInSequence, Apply;
      var n := |schedule| - 1;
      var s, l := Execute(Boot(cfg, makers), schedule[..n]), schedule[n];
      SequenceInRuns(cfg, makers, schedule[..n]);
      BootInv(cfg, makers);
      ExecuteKeepsInv(Boot(cfg, makers), schedule[..n]);
      if l.MakerTurn? {
        MakerKeepsSequence(s, l.j, l.draft);
      } else {
        OthersKeepPids(s, l);
        SequenceKept(s, Apply(s, l));
      }
    }
  }

  /** In every reachable state the PIDs handed out are the numbers from 1 on, without a gap, and as many
      as there are processes and creators that have yet to queue theirs. */
  lemma PidsAreSequential(s: System)
    requires IsReachable(s)
    ensures s.sh.nextPid == 1 + |s.sh.procs| + |set j | 0 <= j < |s.makers| && s.makers[j].HasPid?|
    ensures forall p :: 0 <= p < |s.sh.procs| ==> 1 <= s.sh.procs[p].pid < s.sh.nextPid
    ensures forall pid :: 1 <= pid < s.sh.nextPid ==> PidUsed(s, pid)
  {
    var cfg: Config, makers: nat, schedule: seq<Label> :|
      AdmissibleSchedule(schedule) && s == Execute(Boot(cfg, makers), schedule);
    SequenceInRuns(cfg, makers, schedule);
    ReachableInv(s);
    assert PidsOk(s.sh.procs, s.makers, s.sh.nextPid) by { hide IsReachable, PidsOk; }
    hide Inv, IsReachable, PidUsed, Execute;
  }
}
