/** The generator thread catches up with the ticks it slept through. */
module CatchUp {
  import opened Arithmetic

  /** How many ticks in (first, last] are due for a new process. */
  function DueTicks(first: nat, last: nat, freq: nat): nat
    requires freq > 0
    decreases last
  {
    if last <= first then 0 else DueTicks(first, last - 1, freq) + if last % freq == 0 then 1 else 0
  }

  lemma {:induction false} DueTicksClosedForm(first: nat, last: nat, freq: nat)
    requires freq > 0 && first <= last
    ensures DueTicks(first, last, freq) == last / freq - first / freq
    decreases last
  {
    if first < last {
      DueTicksClosedForm(first, last - 1, freq);
      QuotientStep(last, freq);
    }
  }

  /** The last tick that one wake-up looks at: the first one at which the generator is found switched
      off ends it. */
  function LastServed(first: nat, last: nat, enabled: nat -> bool): nat
    decreases last - first
  {
    if last <= first || !enabled(first + 1) then first else LastServed(first + 1, last, enabled)
  }

  /** One wake-up. `enabled(t)` is what the flag says when the loop is at tick t. It spawns a process
      for every due tick up to the last it serves. */
  method WakeUp(lastSeen: nat, current: nat, freq: nat, enabled: nat -> bool) returns (spawned: nat, seen: nat)
    requires freq > 0 && lastSeen <= current
    ensures spawned == DueTicks(lastSeen, LastServed(lastSeen, current, enabled), freq)
    ensures seen == current
  {
    spawned := 0;
    var t := lastSeen + 1;
    while t <= current
      invariant lastSeen < t <= current + 1
      invariant spawned == DueTicks(lastSeen, t - 1, freq)
      invariant LastServed(lastSeen, current, enabled) == LastServed(t - 1, current, enabled)
    {
      if !enabled(t) { break; }
      if t % freq == 0 {
        spawned := spawned + 1;
      }
      t := t + 1;
    }
    seen := current;
  }

  lemma {:induction false} LastServedBounds(first: nat, last: nat, enabled: nat -> bool)
    requires first <= last
    ensures first <= LastServed(first, last, enabled) <= last
    decreases last - first
  {
    if first < last && enabled(first + 1) {
      LastServedBounds(first + 1, last, enabled);
    }
  }

  /** A wake-up gets as far as tick `x` if and only if the flag is on at every tick up to there. */
  lemma {:induction false} ServesUpTo(first: nat, last: nat, x: nat, enabled: nat -> bool)
    requires first <= x <= last
    ensures LastServed(first, last, enabled) >= x <==> forall t :: first < t <= x ==> enabled(t)
    decreases last - first
  {
    if first < last {
      if enabled(first + 1) {
        LastServedBounds(first + 1, last, enabled);
        if first < x {
          ServesUpTo(first + 1, last, x, enabled);
        }
      }
    }
  }

  /** The last due tick. */
  lemma LastDue(last: nat, freq: nat)
    requires freq > 0
    ensures last / freq * freq <= last
    ensures forall x: nat :: x <= last ==> (x / freq == last / freq <==> x >= last / freq * freq)
  {
    var q := last / freq;
    assert last == freq * q + last % freq;
    forall x: nat | x <= last ensures x / freq == q <==> x >= q * freq {
      if x >= q * freq {
        DivisionIs(x, freq, q, x - q * freq);
      } else {
        assert x == freq * (x / freq) + x % freq;
      }
    }
  }

  /** A wake-up loses no process if and only if the generator is on at every tick up to the last due
      one. Being switched off after that does no harm; being switched off earlier loses all the due
      ticks from that moment, even if the generator is switched on again. */
  lemma LosesNothingIff(first: nat, last: nat, freq: nat, enabled: nat -> bool)
    requires freq > 0 && first <= last
    ensures var served := LastServed(first, last, enabled);
            DueTicks(first, served, freq) == last / freq - first / freq <==>
            forall t :: first < t <= last / freq * freq ==> enabled(t)
  {
    var served, lastDue := LastServed(first, last, enabled), last / freq * freq;
    LastServedBounds(first, last, enabled);
    DueTicksClosedForm(first, served, freq);
    LastDue(last, freq);
    if first <= lastDue {
      ServesUpTo(first, last, lastDue, enabled);
    }
  }

  /** An input on which processes are lost: asleep from tick 0 to tick 10, and switched off from tick
      3 on, the wake-up spawns nothing although ticks 5 and 10 were due. */
  lemma SwitchedOffTooEarly()
    ensures var served := LastServed(0, 10, t => t < 3);
            DueTicks(0, served, 5) == 0 && 10 / 5 - 0 / 5 == 2
  {
    var enabled := (t: nat) => t < 3;
    assert LastServed(2, 10, enabled) == 2;
    assert LastServed(0, 10, enabled) == 2;
  }

  // ---------------------------------------------------------------------------------------------
  // Many wake-ups

  /** The spawns of a series of wake-ups at the given ticks. */
  function Batches(first: nat, wakes: seq<nat>, freq: nat, enabled: nat -> bool): nat
    requires freq > 0
    decreases |wakes|
  {
    if wakes == [] then 0
    else DueTicks(first, LastServed(first, wakes[0], enabled), freq) + Batches(wakes[0], wakes[1..], freq, enabled)
  }

  predicate Ascending(first: nat, wakes: seq<nat>)
    decreases |wakes|
  {
    wakes != [] ==> first <= wakes[0] && Ascending(wakes[0], wakes[1..])
  }

  /** Where a wake-up starts: at the tick of the one before. */
  function Start(first: nat, wakes: seq<nat>, k: nat): nat
    requires k < |wakes|
  {
    if k == 0 then first else wakes[k - 1]
  }

  /** The generator is on at every tick of wake-up `k` up to the last due one. */
  predicate OnWhenDue(first: nat, wakes: seq<nat>, freq: nat, enabled: nat -> bool, k: nat)
    requires freq > 0 && k < |wakes|
  {
    forall t :: Start(first, wakes, k) < t <= wakes[k] / freq * freq ==> enabled(t)
  }

  /** However the wake-ups are batched, there are never more processes than due ticks between the
      first and the last; there are as many if and only if the generator is on at every tick of each
      wake-up up to the last due tick of that wake-up. */
  lemma {:induction false} BatchingLosesNothingIff(first: nat, wakes: seq<nat>, freq: nat, enabled: nat -> bool)
    requires freq > 0 && Ascending(first, wakes)
    ensures var last := if wakes == [] then first else wakes[|wakes| - 1];
            && first <= last
            && Batches(first, wakes, freq, enabled) <= last / freq - first / freq
            && (Batches(first, wakes, freq, enabled) == last / freq - first / freq <==>
                  forall k :: 0 <= k < |wakes| ==> OnWhenDue(first, wakes, freq, enabled, k))
    decreases |wakes|
  {
    if wakes != [] {
      var next, rest := wakes[0], wakes[1..];
      BatchingLosesNothingIff(next, rest, freq, enabled);
      OneBatch(first, next, freq, enabled);
      assert OnWhenDue(first, wakes, freq, enabled, 0) <==>
             forall t :: first < t <= next / freq * freq ==> enabled(t);
      forall k | 0 <= k < |rest|
        ensures OnWhenDue(next, rest, freq, enabled, k) <==> OnWhenDue(first, wakes, freq, enabled, k + 1)
      {
      }
      if forall k :: 0 <= k < |wakes| ==> OnWhenDue(first, wakes, freq, enabled, k) {
        forall k | 0 <= k < |rest| ensures OnWhenDue(next, rest, freq, enabled, k) {
          assert OnWhenDue(first, wakes, freq, enabled, k + 1);
        }
      } else {
        var k :| 0 <= k < |wakes| && !OnWhenDue(first, wakes, freq, enabled, k);
        assert k > 0 ==> !OnWhenDue(next, rest, freq, enabled, k - 1);
      }
    }
  }

  lemma OneBatch(first: nat, last: nat, freq: nat, enabled: nat -> bool)
    requires freq > 0 && first <= last
    ensures var spawned := DueTicks(first, LastServed(first, last, enabled), freq);
            && spawned <= last / freq - first / freq
            && (spawned == last / freq - first / freq <==>
                  forall t :: first < t <= last / freq * freq ==> enabled(t))
  {
    var served := LastServed(first, last, enabled);
    LosesNothingIff(first, last, freq, enabled);
    LastServedBounds(first, last, enabled);
    DueTicksClosedForm(first, served, freq);
    DueTicksClosedForm(served, last, freq);
  }

  /** With the generator on throughout, the number of processes depends only on the first and the last
      tick. */
  lemma BatchingLosesNothing(first: nat, wakes: seq<nat>, freq: nat, enabled: nat -> bool)
    requires freq > 0 && Ascending(first, wakes)
    requires forall t :: first < t ==> enabled(t)
    ensures var last := if wakes == [] then first else wakes[|wakes| - 1];
            first <= last && Batches(first, wakes, freq, enabled) == last / freq - first / freq
  {
    BatchingLosesNothingIff(first, wakes, freq, enabled);
    forall k | 0 <= k < |wakes| ensures OnWhenDue(first, wakes, freq, enabled, k) {
      StartsLater(first, wakes, k);
    }
  }

  lemma {:induction false} StartsLater(first: nat, wakes: seq<nat>, k: nat)
    requires Ascending(first, wakes) && k < |wakes|
    ensures first <= Start(first, wakes, k)
    decreases k
  {
    if k > 0 {
      StartsLater(wakes[0], wakes[1..], k - 1);
    }
  }

  // ---------------------------------------------------------------------------------------------
  // Stepping tick by tick

  /** How many ticks in (first, last] are due and find the generator on. */
  function EnabledTicks(first: nat, last: nat, freq: nat, enabled: nat -> bool): nat
    requires freq > 0
    decreases last
  {
    if last <= first then 0
    else EnabledTicks(first, last - 1, freq, enabled) + if enabled(last) && last % freq == 0 then 1 else 0
  }

  /** `steps` calls of `stepOnce`. Each advances the tick by one and spawns when the generator is on
      and the tick is due. */
  method StepMany(tick: nat, steps: nat, freq: nat, enabled: nat -> bool) returns (after: nat, spawned: nat)
    requires freq > 0
    ensures after == tick + steps
    ensures spawned == EnabledTicks(tick, after, freq, enabled)
    ensures spawned == |set t | tick < t <= after && t % freq == 0 && enabled(t)|
    ensures spawned <= after / freq - tick / freq
    ensures spawned == after / freq - tick / freq <==>
            forall t :: tick < t <= after && t % freq == 0 ==> enabled(t)
  {
    after, spawned := tick, 0;
    for i := 0 to steps
      invariant after == tick + i
      invariant spawned == EnabledTicks(tick, after, freq, enabled)
    {
      after := after + 1;
      if enabled(after) && after % freq == 0 {
        spawned := spawned + 1;
      }
    }
    EnabledAmongDue(tick, after, freq, enabled);
    EnabledTicksCount(tick, after, freq, enabled);
  }

  /** Counting the ticks one by one gives the size of the set of those that are due and find the
      generator on. */
  lemma {:induction false} EnabledTicksCount(first: nat, last: nat, freq: nat, enabled: nat -> bool)
    requires freq > 0 && first <= last
    ensures EnabledTicks(first, last, freq, enabled) == |set t | first < t <= last && t % freq == 0 && enabled(t)|
    decreases last
  {
    var due := set t | first < t <= last && t % freq == 0 && enabled(t);
    if first == last {
      assert due == {};
    } else {
      EnabledTicksCount(first, last - 1, freq, enabled);
      var earlier := set t | first < t <= last - 1 && t % freq == 0 && enabled(t);
      assert due == if last % freq == 0 && enabled(last) then earlier + {last} else earlier;
    }
  }

  lemma {:induction false} EnabledAmongDue(first: nat, last: nat, freq: nat, enabled: nat -> bool)
    requires freq > 0 && first <= last
    ensures var n := EnabledTicks(first, last, freq, enabled);
            && n <= last / freq - first / freq
            && (n == last / freq - first / freq <==> forall t :: first < t <= last && t % freq == 0 ==> enabled(t))
    decreases last
  {
    if first < last {
      EnabledAmongDue(first, last - 1, freq, enabled);
      QuotientStep(last, freq);
    }
  }

  /** A wake-up never spawns more than stepping through the same ticks would, and it spawns as many if
      and only if no due tick finds the generator on after an earlier one found it off. */
  lemma WakeUpMatchesSteppingIff(first: nat, last: nat, freq: nat, enabled: nat -> bool)
    requires freq > 0 && first <= last
    ensures var spawned := DueTicks(first, LastServed(first, last, enabled), freq);
            && spawned <= EnabledTicks(first, last, freq, enabled)
            && (spawned == EnabledTicks(first, last, freq, enabled) <==>
                  forall t, u :: first < u < t <= last && t % freq == 0 && enabled(t) ==> enabled(u))
  {
    var served := LastServed(first, last, enabled);
    LastServedBounds(first, last, enabled);
    StopsAtFirstOff(first, last, enabled);
    ServesUpTo(first, last, served, enabled);
    AllEnabled(first, served, freq, enabled);
    EnabledFrom(first, served, last, freq, enabled);
  }

  lemma {:induction false} StopsAtFirstOff(first: nat, last: nat, enabled: nat -> bool)
    requires first <= last
    ensures var served := LastServed(first, last, enabled);
            served < last ==> !enabled(served + 1)
    decreases last - first
  {
    if first < last && enabled(first + 1) {
      StopsAtFirstOff(first + 1, last, enabled);
    }
  }

  lemma {:induction false} AllEnabled(first: nat, last: nat, freq: nat, enabled: nat -> bool)
    requires freq > 0 && first <= last && forall t :: first < t <= last ==> enabled(t)
    ensures EnabledTicks(first, last, freq, enabled) == DueTicks(first, last, freq)
    decreases last
  {
    if first < last {
      AllEnabled(first, last - 1, freq, enabled);
    }
  }

  lemma {:induction false} EnabledFrom(first: nat, mid: nat, last: nat, freq: nat, enabled: nat -> bool)
    requires freq > 0 && first <= mid <= last
    ensures EnabledTicks(first, last, freq, enabled) >= EnabledTicks(first, mid, freq, enabled)
    ensures EnabledTicks(first, last, freq, enabled) == EnabledTicks(first, mid, freq, enabled) <==>
            forall t :: mid < t <= last && t % freq == 0 ==> !enabled(t)
    decreases last
  {
    if mid < last {
      EnabledFrom(first, mid, last - 1, freq, enabled);
    }
  }
}
