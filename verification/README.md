# A verified model of the process scheduler

The program emulates an operating system that schedules randomly generated processes on a number of
cores. This project models its two hard parts and proves what holds of them for every program, every
number of cores, either policy, any quantum and delay, and every interleaving of the threads.

**The process interpreter.** A process runs a tree of PRINT, DECLARE, ADD, SUBTRACT, SLEEP and nested
FOR one atomic instruction at a time, on an explicit stack of loop frames. `Instructions` gives the
simple meaning: the unrolled list of atomics, folded over a variable store and a print log. `History`
tells the same without a store: a variable has the value of the last write to it.
`StackMachine` and the class in `ProcessClass` are the stack and its loop; `ProcessSpec` is a process
as a value, with its lifecycle and the number of `executeNext` calls it still needs (its fuel).
`Generator` is the random generator, with a list of numbers that may hold anything in place of the random
numbers; `Draws` says what it makes of them, and that nothing it could make is missing.

**The scheduler.** `SchedulerSpec` says what each lock region does to the shared lists, and `Threads`
makes step machines of the cores, the tick thread and the creators. One step is one lock region, one
call into a process or one read of a process state; a schedule is any list of thread names, and
`Execute` runs it. A core that has popped a process and not yet shown it in its slot holds it in its
program counter. A process pointer is an index into the list of processes that the engine owns, in
their order of arrival. `EngineClass` and `MachineClass` are the imperative side: classes whose
methods change the fields step by step, each tied to the same step of the model, up to
`Machine.Run`, which runs a whole schedule on objects. `Cpu.Iteration` is the body of the core loop
in one piece; `LoopBody` proves that the steps of an undisturbed core do exactly that, and `Iterations`
what it achieves. `Creators` says what the creators queue and which PIDs they hand out.

The invariant is in `Invariant`; `TickRound` and `Reachable` prove that every step of every thread
keeps it. The consequences are in `Outcomes` (conservation, exclusive and legal execution, slots,
schedule independence, PIDs), `Slices` (how long a core keeps a process), `Rounds` (tick rounds and
sleeps), `Work` (calls are conserved), `Queueing` (bounded waiting, in calls and in turns), `Fifo` (order
of service) and `CatchUp` (the generator loses no tick). `Distances` and `Liveness` put them together:
under every fair schedule and any stream of arrivals, every drafted process finishes, with the lines that
its program prints in its log and the last write to each variable in its store.

History variables record what the code forgets and only the theorems need: `parkedAt` (the round in
which a process was last parked), `slice` (calls since a core claimed its process) and `before` (the
sleepers at the snapshot of a round). They are ghost fields in the classes.

Steps that touch nothing another thread can see are joined to the step beside them: a core stores its
current process together with the lock region that shows or clears its slot, the tick thread
advances the tick together with its snapshot, and a creator builds its process together with the lock
region that queues it.

Where the code and its own words differ, the model follows the code:

- `src/process/Instructions.cpp:136-138` says that the duration of a SLEEP counts towards the length
  of a program; the code counts 1 (`src/process/Instructions.cpp:110-112`).
- `include/process/Instructions.h:109-110` speaks of a number of top-level instructions; the code
  bounds the unrolled length.
- `src/scheduler/SchedulingPolicy.cpp:26-28` says that the FCFS `onPreempt` is called for sleeping and
  finished processes; it is never called (`Outcomes.PreemptionKeepsTheProcess`).

Two promises do not hold of all inputs. Each has its exact condition and a concrete input on which it
fails.

- Catch-up. A wake-up of the generator stops at the first tick at which it finds itself switched off and
  forgets the ticks behind it. It loses no process if and only if it is on at every tick up to the last
  due one (`CatchUp.LosesNothingIff`; over many wake-ups, `CatchUp.BatchingLosesNothingIff`).
  `CatchUp.SwitchedOffTooEarly` loses two.
- Program length. Validation (`src/config/Config.cpp:68-75`) accepts 32-bit bounds that the generator
  converts to a signed int. The length is in the wanted range if and only if the upper bound fits an int
  (`Generator.GenerateProgram`). When both bounds are beyond, the draw is negative and the program empty;
  when only the upper one is, as with 1 and 0x8000_0000, the precondition of the library distribution is
  broken and nothing is promised (`Generator.DrawableIff`, `Generator.RangesThatFail`).

## Model

| member | source | states |
|---|---|---|
| Instructions.EffectMatchesReference | src/process/Instructions.cpp:17-56 | executing an instruction, auto-declaring what it reads, cannot be told apart from the reference, which leaves the store alone when it reads |
| History.ArithmeticStores | src/process/Instructions.cpp:27-52 | ADD stores min(65535, a+b) and SUBTRACT max(0, a-b) of what the operands read as, where a missing variable reads as 0; no other variable changes |
| History.PrintAddsALine | src/process/Instructions.cpp:17-25 | PRINT adds the greeting, the message, or the message with the value of the variable, which is declared as 0 when missing |
| History.DeclaredIsRead | src/process/Process.cpp:100-108 | what has been declared is what PRINT, ADD and SUBTRACT read, on either side |
| History.MeaningIsHistory | src/process/Instructions.cpp:17-56 | after any run every variable reads as the last write to it, or as 0, and the log has one line for each PRINT |
| History.PrintsLastDeclared | src/process/Instructions.cpp:17-25 | a PRINT at the end of a run prints what its variable was last declared with, if nobody has written to it since |
| History.PrintsZeroWithoutWrite | src/process/Process.cpp:100-104 | a PRINT of a variable that was never written prints 0 |
| Instructions.DecimalReadsBack | src/process/Instructions.cpp:23 | a printed variable value reads back as itself |
| Instructions.UnrollConcat | src/process/Process.cpp:39-65 | the unrolled list of a concatenation is the concatenation of the unrolled lists |
| Instructions.UnrollAtoms | src/process/Process.cpp:53-62 | a list without loops unrolls to itself, position by position |
| Instructions.UnrollLoop | src/process/Process.cpp:43-60 | a loop unrolls to n times the length of its body, and position i is position i modulo that length of the unrolled body |
| StackMachine.Rewind | src/process/Process.cpp:43-48 | starting another pass of a loop leaves what is left to run unchanged and lowers the termination measure by one |
| StackMachine.PopDone | src/process/Process.cpp:49-50 | dropping a frame whose last pass is over leaves what is left to run unchanged and lowers the measure by one |
| StackMachine.StepOver | src/process/Process.cpp:53-54 | advancing past an instruction takes exactly its unrolling off the front of what is left to run |
| StackMachine.AtomIsNext | src/process/Process.cpp:53-62 | the atomic at which the top frame stands is the next to run |
| StackMachine.Descend | src/process/Process.cpp:56-59 | pushing a loop body puts the whole unrolling of the loop in front and lowers the measure |
| StackMachine.SkippedLoopIsEmpty | src/process/Process.cpp:57-60 | loops that are skipped, without passes or without a body, have nothing to run |
| ProcessClass.CountAtomics | src/process/Process.cpp:9-21 | the clamped recursive count is min(unrolled length, INT_MAX), although it clamps inside the recursion, and its 64-bit accumulator does not overflow |
| ProcessClass.ClampedProduct | src/process/Process.cpp:13-18 | clamping the count of a body changes no clamped total |
| ProcessClass.Process.constructor | src/process/Process.cpp:25-37 | a new process has its whole program to run, and is FINISHED at once exactly when that is empty |
| ProcessClass.Process.NextAtomic | src/process/Process.cpp:39-65 | hands out the head of what is left and keeps the tail, and the very atomic at which the top frame stands; returns nothing exactly when nothing is left; terminates for every program |
| ProcessClass.Process.ExecuteNext | src/process/Process.cpp:67-86 | the imperative call does to the fields what the step of the value model says, in every state: it stops at FINISHED, runs one atomic otherwise, and ends WAITING, FINISHED or RUNNING as that atomic and the line count say |
| ProcessClass.Process.TickSleep | src/process/Process.cpp:88-93 | the imperative tick does to the fields what the step of the value model says |
| ProcessClass.Process.GetVar | src/process/Process.cpp:100-104 | answers the stored value, or 0 for a missing variable, which it declares |
| ProcessClass.Process.SetVar | src/process/Process.cpp:106-108 | changes one variable and nothing else |
| ProcessClass.Process.RequestSleep | src/process/Process.cpp:114-118 | a sleep of 0 ticks changes nothing |
| ProcessClass.Process.Resolve | src/process/Instructions.cpp:32-34 | the value of an operand, with the declaration it may cause |
| ProcessClass.Process.Execute | src/process/Instructions.cpp:17-56 | each instruction changes the memory or the sleep as the value model says, with unsigned 16-bit results |
| ProcessSpec.NewProcIsGood | src/process/Process.cpp:25-37 | a new process with a non-empty program satisfies the lifecycle invariant with its full cost ahead |
| ProcessSpec.ExecuteNextStep | src/process/Process.cpp:67-86 | a call keeps the lifecycle invariant, runs one atomic, costs exactly one unit of fuel, and ends WAITING for exactly the operand of that atomic if it is a SLEEP above 0, FINISHED if it is the last, RUNNING otherwise |
| ProcessSpec.TickSleepStep | src/process/Process.cpp:88-93 | a tick keeps the invariant and the fuel; the sleeper becomes READY exactly on its last tick |
| ProcessSpec.FuelZeroIffFinished | src/process/Process.cpp:67-86 | the fuel is zero if and only if the process is FINISHED |
| ProcessSpec.FinishedIsFinal | src/process/Process.cpp:69 | FINISHED is absorbing and shows the meaning of the whole program |
| ProcessSpec.RunsToCompletion | src/process/Process.cpp:67-93 | left alone, a process finishes after exactly the calls and ticks its program asks for, and not sooner |
| Draws.CommandIsDrawn | src/process/Instructions.cpp:77-128 | whatever the random numbers, names come from the pool, literals from 0..500 and 0..1000, sleeps from 1..8, and a FOR has 1 to 3 commands and 2 to 5 repeats and nests within the depth |
| Draws.CommandScript | src/process/Instructions.cpp:77-128 | every such command is drawn by some random numbers |
| Generator.DrawnFacts | src/process/Instructions.cpp:88-128 | a drawn command is well-formed, nests within the depth, and unrolls to between 1 and 15^depth atomics |
| Generator.DrawnRunsFromPools | src/process/Instructions.cpp:77-112 | everything a drawn program runs comes from the pools |
| Generator.Dice.RandomCommand | src/process/Instructions.cpp:88-128 | draws the command that the random numbers say, and its weight is the length of its unrolling |
| Generator.DrawableIff | src/process/Instructions.cpp:132-139 | a validated range meets the precondition of the random distribution if and only if both its bounds lie on one side of the largest int |
| Generator.RangesThatFail | src/config/Config.cpp:68-75 | two ranges that pass validation: one is drawn from below zero, the other breaks the precondition |
| Generator.GenerateProgram | src/process/Instructions.cpp:130-147 | the target lies in the configured range, with bounds in the wrong order swapped and zeros replaced by 1, and the program is just as long as the target and at most 3374 atomics longer, if and only if the range fits a signed int; otherwise the program is empty |
| Generator.GeneratesExactly | src/process/Instructions.cpp:130-147 | for a validated range that fits an int, a program can come out if and only if its commands can be drawn and it is just as long as some target between the bounds |
| Generator.Generate | src/process/Instructions.cpp:130-149 | for every range that fits an int the line count lies in [target, target+3374] and the process is READY; it is the clamped unrolled length, and the whole of it when the range leaves room for the last command |
| SchedulerSpec.SlotOfFirst | src/scheduler/SchedulerEngine.cpp:180-186 | search-and-clear finds the first slot with the process, or none when there is none |
| EngineClass.Engine.PopReady | src/scheduler/SchedulerEngine.cpp:149-152 | implements the pop of the model |
| EngineClass.Engine.MarkRunning | src/scheduler/SchedulerEngine.cpp:154-163 | implements the claim of a slot |
| EngineClass.Engine.ReleaseSlot | src/scheduler/SchedulerEngine.cpp:180-186 | the search loop implements the release of a slot |
| EngineClass.Engine.MarkFinished | src/scheduler/SchedulerEngine.cpp:177-188 | implements the release to the finished list |
| EngineClass.Engine.OnPreempt | src/scheduler/SchedulingPolicy.cpp:26-46 | FCFS drops the process, RR queues it unless it is FINISHED |
| EngineClass.Engine.Preempt | src/scheduler/SchedulerEngine.cpp:190-201 | implements the release to the policy |
| EngineClass.Engine.MoveToSleeping | src/scheduler/SchedulerEngine.cpp:203-216 | implements parking, with no second entry for a process already parked |
| EngineClass.Engine.BeginTick | src/scheduler/SchedulerEngine.cpp:229-233 | advances the tick and copies the sleepers |
| EngineClass.Engine.Rebuild | src/scheduler/SchedulerEngine.cpp:264-282 | the three loops of the rebuild split the current lists as the model says |
| EngineClass.Engine.TakePid | src/scheduler/SchedulerEngine.cpp:104-108 | hands out the next PID |
| EngineClass.Engine.Admit | src/scheduler/SchedulerEngine.cpp:113-118 | owns and queues a new process |
| Creators.DraftProgram | src/process/Instructions.cpp:151-156 | what the factory makes of a validated range is never empty and fits an int |
| Creators.QueuesTheDraft | src/scheduler/SchedulerEngine.cpp:110-117 | the process that a creator queues has the PID in hand, the drafted name, arrival time and whole program, and nothing printed; it is READY at the end of the queue |
| Creators.PidsAreSequential | src/scheduler/SchedulerEngine.cpp:104-108 | in every reachable state the PIDs handed out are 1, 2, 3 and so on without a gap, as many as processes and creators with a PID in hand |
| LoopBody.IterationIsBody | src/scheduler/CPU.cpp:27-80 | the steps of an undisturbed core, one after the other, are one execution of the loop body |
| Iterations.IterationMakesOneCall | src/scheduler/CPU.cpp:27-80 | an undisturbed iteration calls exactly one process, the current one or the front of the queue, unless a delay is pending or there is none; it never ends idle while the queue has a process |
| MachineClass.Cpu.Iteration | src/scheduler/CPU.cpp:27-80 | the loop body in one piece equals the steps of the core |
| MachineClass.Cpu.Step | src/scheduler/CPU.cpp:27-80 | a core object takes the same step as the core of the model |
| MachineClass.TickThread.Step | src/scheduler/SchedulerEngine.cpp:226-283 | the tick thread object takes the same step as the ticker of the model |
| MachineClass.TickThread.SortForWaking | src/scheduler/SchedulerEngine.cpp:253-258 | sorts the woken: the earlier arrival first, the lower PID first among equals |
| MachineClass.MakerThread.Step | src/scheduler/SchedulerEngine.cpp:101-147 | a creator object takes the same step as the creator of the model, and the object it queues has the drafted program, name and arrival time and the PID in hand |
| MachineClass.Machine.Run | src/scheduler/Scheduler.cpp:12-32 | objects that run a schedule end in the state the model predicts, and keep the invariant |
| MachineClass.Simulate | src/scheduler/Scheduler.cpp:12-32 | the state of a started machine after any schedule is a reachable state of the model |
| TickRound.WakeOrderSorts | src/scheduler/SchedulerEngine.cpp:253-258 | the waking order is a permutation of the woken in which the earlier arrival, and of two at the same time the lower PID, comes first |
| TickRound.WakeOrderIsUnique | src/scheduler/SchedulerEngine.cpp:253-258 | any sorted permutation is that order, so it does not matter how the library sorts |
| TickRound.TickTurnKeepsInv | src/scheduler/SchedulerEngine.cpp:226-283 | every step of the tick thread keeps the invariant |
| TickRound.WokenAreTracked | src/scheduler/SchedulerEngine.cpp:264-282 | all that was collected is still on the sleeper list at the rebuild, and the rebuild loses and duplicates nobody |
| TickRound.EndOfRound | src/scheduler/SchedulerEngine.cpp:235-252 | at the rebuild the due sleepers are READY after exactly their ticks, all others are WAITING |
| Invariant.CoreTurnKeepsInv | src/scheduler/CPU.cpp:27-80 | every step of a core keeps the invariant |
| Invariant.RunFrame | src/scheduler/CPU.cpp:50 | a call by one core is not noticed by the queue, the sleepers, the finished list or any other core |
| Invariant.ReleaseOwnSlot | src/scheduler/SchedulerEngine.cpp:177-212 | the first slot that shows the process of a core is the slot of that core |
| Invariant.ParkedSleepersOk | src/scheduler/SchedulerEngine.cpp:203-216 | parking during a round adds a late arrival and leaves the round alone |
| Reachable.ApplyKeepsInv | src/scheduler/SchedulerEngine.cpp:101-283 | every step of every thread keeps the invariant |
| Reachable.ExecuteKeepsInv | src/scheduler/SchedulerEngine.cpp:101-283 | every schedule keeps the invariant |
| Reachable.BootInv | src/scheduler/SchedulerEngine.cpp:23-26 | the invariant holds of a new system with any number of cores and creators |
| Outcomes.Conservation | src/scheduler/CPU.cpp:27-80 | in every reachable state each process is in exactly one of the ready queue, the sleepers, the finished list and the hands of one core |
| Outcomes.PreemptionKeepsTheProcess | src/scheduler/SchedulerEngine.cpp:190-201 | no core preempts under FCFS, and under RR the FINISHED exception is never taken, so preemption loses nobody |
| Outcomes.CallsAreExclusiveAndLegal | src/scheduler/CPU.cpp:33-68 | no core calls a WAITING or FINISHED process, and no other core or list has it |
| Outcomes.QueuedAndRetainedAreRunnable | src/scheduler/CPU.cpp:56-68 | nothing WAITING or FINISHED is queued, or stays on a core between iterations |
| Outcomes.FinishingListsTheProcess | src/scheduler/SchedulerEngine.cpp:177-188 | a core that finishes its process puts it, FINISHED, at the end of the finished list |
| Outcomes.FinishedListIsRight | src/scheduler/SchedulerEngine.cpp:177-188 | the finished list has exactly the FINISHED processes that no core holds |
| Outcomes.SlotBookkeeping | src/scheduler/SchedulerEngine.cpp:154-216 | the used-core count is the number of taken slots, and slot i is empty or shows what core i holds |
| Outcomes.OneSlotEach | src/scheduler/SchedulerEngine.cpp:154-216 | no process is in two slots |
| Outcomes.ReleaseClearsOwnSlot | src/scheduler/SchedulerEngine.cpp:177-216 | releasing a core clears its own slot and no other |
| Outcomes.UtilizationIsAPercentage | src/scheduler/SchedulerEngine.cpp:330-335 | the utilization lies between 0 and 100 |
| Outcomes.UtilizationTells | src/scheduler/SchedulerEngine.cpp:330-335 | it is 100 if and only if every core has a process and 0 if and only if none has |
| Outcomes.ClaimRaisesUtilization | src/scheduler/SchedulerEngine.cpp:154-163 | a claim raises it by the share of one core |
| Outcomes.LifecycleHolds | src/process/Process.cpp:67-93 | in every reachable state line plus what is left is the total, the memory shows the history of the lines behind, FINISHED means at the end |
| Outcomes.FinishedShowsMeaning | src/process/Process.cpp:67-86 | the log of a finished process has the lines its unrolled program prints, and each variable reads as the last write to it |
| Outcomes.ScheduleIndependence | src/process/Instructions.cpp:17-56 | two finished runs of one program print and compute the same under any policies, core counts, quanta, delays and schedules |
| Slices.SliceLength | src/scheduler/CPU.cpp:41-78 | RR preempts right after call ceil((q-1)/(d+1))+1 of a slice, with between q and q+d ticks used |
| Slices.NoEarlyPreemption | src/scheduler/SchedulingPolicy.cpp:34-40 | a call that leaves the process RUNNING leads to a preemption if and only if it is that call |
| Slices.TicksAreOwnCalls | src/scheduler/CPU.cpp:27-80 | in every reachable state, under either policy, the ticks and the pending delay of a core are those of the calls of this slice and of nothing before |
| Slices.SliceOfRun | src/scheduler/CPU.cpp:27-80 | from its claim to any later state of the slice, ticks and delay are determined by the calls made of that process: no delay of a predecessor is charged to it, and RR preempts after exactly the closed-form number of calls |
| Outcomes.PidsAreDistinct | src/scheduler/SchedulerEngine.cpp:101-147 | PIDs of processes and PIDs handed out and not yet used are pairwise distinct and below the next one, however the creators interleave |
| Rounds.RoundTicksOnce | src/scheduler/SchedulerEngine.cpp:235-238 | at the rebuild every process parked before the snapshot has been ticked exactly once |
| Rounds.RoundRefinesAtomicRound | src/scheduler/SchedulerEngine.cpp:226-283 | an interleaved round does what an atomic one would: due sleepers in the order of arrival in front of the current queue, the other sleepers in order, then the late arrivals |
| Rounds.WakesByArrival | src/scheduler/SchedulerEngine.cpp:253-281 | in every reachable state at the end of a round the woken, and after the rebuild the front of the queue, stand in the order of arrival, then PID |
| Rounds.SleepersWaitBetweenRounds | src/scheduler/SchedulerEngine.cpp:226-283 | between rounds every sleeper is WAITING with the rest of its sleep to go |
| Rounds.SleeperStep | src/scheduler/SchedulerEngine.cpp:226-283 | no step of any thread ends a sleep but the rebuild of the round in which it is over |
| Rounds.ParkingStartsSleep | src/scheduler/SchedulerEngine.cpp:203-216 | the core that parks a process puts it at the end of the sleepers, in the round that is current, with a real sleep to come |
| Rounds.ExactSleep | src/process/Process.cpp:88-118 | after SLEEP(x) a process is asleep all along a schedule if and only if fewer than x of the rounds begun since have ended; the end of the x-th puts it into the ready queue, so no wakeup is early and none is lost |
| Work.FuelStep | src/scheduler/CPU.cpp:50-68 | a step lowers the fuel of a process by exactly the calls it makes of it, and nothing raises it |
| Work.TotalWork | src/scheduler/CPU.cpp:50-68 | calls made plus fuel left is the cost of all programs admitted; the calls equal that cost if and only if all is FINISHED |
| Work.FinishedAfterItsCalls | src/process/Process.cpp:67-86 | a process is FINISHED if and only if it has had its total of calls, plus one exactly when its last atomic is a SLEEP above 0 |
| Queueing.AheadNeverGrows | src/scheduler/SchedulerEngine.cpp:275-282 | while a process is queued, the set of those that may run before it gains no member, although woken sleepers overtake |
| Queueing.BoundedWaiting | src/scheduler/SchedulerEngine.cpp:149-283 | while a process is queued, all cores together make at most as many calls as that set still needed, under both policies and any arrivals |
| Queueing.WaitBudgetStep | src/scheduler/CPU.cpp:27-80 | every turn of any core uses up part of the budget of a queued process, and no turn of any thread adds to it |
| Queueing.BoundedTurns | src/scheduler/SchedulerEngine.cpp:149-283 | while a process is queued, all cores together take at most max(7, d+4) turns for each call that those ahead of it still needed, plus what they had left before their next calls |
| Queueing.SlackIsSmall | src/scheduler/CPU.cpp:27-80 | what the cores have left before their next calls is less than max(7, d+4) turns each |
| Fifo.ServedInOrder | src/scheduler/SchedulerEngine.cpp:149-188 | with one FCFS core and no real sleeps, finished, in hand and queued are together the arrival history |
| Distances.HelpfulStep | src/scheduler/CPU.cpp:27-80 | every unfinished process has a helper, a core or the tick thread, whose turn lowers its distance to the end; no turn of any thread raises the distance, and the helper stays the same until it falls |
| Liveness.EveryProcessFinishes | src/scheduler/CPU.cpp:27-80 | in every run in which no core and not the tick thread is stopped for ever, every process that ever arrives is from some moment on finished and shows the history of its whole program, whatever else arrives |
| Liveness.EveryDraftFinishes | src/scheduler/SchedulerEngine.cpp:101-147 | total correctness from the draft on: what a creator is asked for finishes under that PID and name, with what the drafted program prints and computes |
| Liveness.FairRunsDrain | src/scheduler/CPU.cpp:27-80 | once arrivals have stopped, every such run finishes everything, in exactly as many calls as there was fuel |
| Liveness.RoundRobinIsFair | src/scheduler/SchedulerEngine.cpp:67-75 | there are such runs: the cores and the tick thread in turn |
| Liveness.NeverStuck | src/scheduler/CPU.cpp:27-80 | from every reachable state the threads can finish all processes without new arrivals, in exactly as many calls as there was fuel |
| CatchUp.WakeUp | src/scheduler/SchedulerEngine.cpp:88-97 | one wake-up spawns for every due tick it slept through, up to the moment it finds the generator off |
| CatchUp.ServesUpTo | src/scheduler/SchedulerEngine.cpp:91-92 | a wake-up gets as far as a tick if and only if the generator is on at every tick up to it |
| CatchUp.LosesNothingIff | src/scheduler/SchedulerEngine.cpp:91-97 | a wake-up loses no process if and only if the generator is on at every tick up to the last due one |
| CatchUp.SwitchedOffTooEarly | src/scheduler/SchedulerEngine.cpp:91-97 | an input on which two due processes are lost |
| CatchUp.BatchingLosesNothingIff | src/scheduler/SchedulerEngine.cpp:77-99 | over any batching of the wake-ups there are never more than e/freq - s/freq spawns, and as many if and only if the generator is on up to the last due tick of each wake-up |
| CatchUp.BatchingLosesNothing | src/scheduler/SchedulerEngine.cpp:77-99 | with the generator on, the spawns between ticks s and e number e/freq - s/freq for every batching of the wake-ups |
| CatchUp.StepMany | src/scheduler/SchedulerEngine.cpp:58-65 | stepping tick by tick spawns once for each member of the set of due ticks that find the generator on, which is e/freq - s/freq if and only if it is on at all due ticks |
| CatchUp.WakeUpMatchesSteppingIff | src/scheduler/SchedulerEngine.cpp:58-99 | a wake-up never spawns more than stepping through its ticks, and as many if and only if no due tick finds the generator on after an earlier tick found it off |

## Left out

- CountAtomics: a negative FOR repeat is excluded; the code would multiply by it while the stack machine skips the loop. The generator only makes 2 to 5.
- Admissible: arriving programs are non-empty and no longer than INT_MAX, as the generator makes them; a longer one would have its line count clamped and end early.
- ExactSleep: counts tick rounds, not wall-clock time.
- EveryProcessFinishes: asks that each core and the tick thread keep taking turns; that the operating system schedules them is not modelled.
- SliceLength: counts iterations of the core loop, which may outnumber ticks because the wait for a tick times out; the counters are unbounded integers.
- Console, screens, reports, the demo, configuration parsing, file output: terminal and text handling.
- Start, stop and join of the threads, condition variables and time-outs: replaced by arbitrary interleaving.
- `enqueueReady`, `clearRunning`, `adoptSleeping` and the snapshot getters: no thread of the scheduler calls them.
- A factory that is missing or returns nothing, and null process pointers.
- The names the generator makes from PIDs: a name is whatever the factory is given.
- The width of the tick, PID and line counters: no wrap-around of those is modelled.
