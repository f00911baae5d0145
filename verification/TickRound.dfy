/** The tick thread and the creators keep the invariant, and a tick round, although it takes many
    steps between which everybody else runs, does what one atomic round would have done. */
module TickRound {
  import opened ProcessSpec
  import opened SchedulerSpec
  import opened Threads
  import opened Places
  import opened Invariant

  // ---------------------------------------------------------------------------------------------
  // The order of waking

  /** `p` arrived before `q`, or at the same time with the lower PID. */
  predicate ArrivedBefore(procs: seq<Proc>, p: nat, q: nat) {
    && p < |procs| && q < |procs|
    && (|| procs[p].createdAt < procs[q].createdAt
        || (procs[p].createdAt == procs[q].createdAt && procs[p].pid < procs[q].pid))
  }

  ghost predicate InArrivalOrder(procs: seq<Proc>, refs: seq<nat>) {
    forall i, j :: 0 <= i < j < |refs| ==> ArrivedBefore(procs, refs[i], refs[j])
  }

  lemma SortedIsArrivalOrder(procs: seq<Proc>, refs: seq<nat>)
    requires SortedForWaking(procs, refs)
    ensures InArrivalOrder(procs, refs)
  {
    forall i, j | 0 <= i < j < |refs| ensures ArrivedBefore(procs, refs[i], refs[j]) {
      assert WakesBeforeRef(procs, refs[i], refs[j]);
    }
  }

  lemma SortedTail(procs: seq<Proc>, s: seq<nat>)
    requires s != [] && SortedForWaking(procs, s)
    ensures SortedForWaking(procs, s[1..])
    ensures forall p :: p in s[1..] ==> WakesBeforeRef(procs, s[0], p)
  {
    var tail := s[1..];
    forall i, j | 0 <= i < j < |tail| ensures WakesBeforeRef(procs, tail[i], tail[j]) {
      assert WakesBeforeRef(procs, s[i + 1], s[j + 1]);
    }
    forall p | p in tail ensures WakesBeforeRef(procs, s[0], p) {
      var k :| 0 <= k < |tail| && tail[k] == p;
      assert WakesBeforeRef(procs, s[0], s[k + 1]);
    }
  }

  lemma SortedCons(procs: seq<Proc>, p: nat, tail: seq<nat>)
    requires SortedForWaking(procs, tail)
    requires forall q :: q in tail ==> WakesBeforeRef(procs, p, q)
    ensures SortedForWaking(procs, [p] + tail)
  {
    var s := [p] + tail;
    forall i, j | 0 <= i < j < |s| ensures WakesBeforeRef(procs, s[i], s[j]) {
      if i > 0 {
        assert WakesBeforeRef(procs, tail[i - 1], tail[j - 1]);
      } else {
        assert s[j] in tail;
      }
    }
  }

  lemma {:induction false} InsertSorts(procs: seq<Proc>, p: nat, sorted: seq<nat>)
    requires p < |procs| && forall q :: q in sorted ==> q < |procs| && procs[q].pid != procs[p].pid
    requires SortedForWaking(procs, sorted)
    ensures SortedForWaking(procs, Insert(procs, p, sorted))
    ensures multiset(Insert(procs, p, sorted)) == multiset{p} + multiset(sorted)
    ensures forall q :: q in Insert(procs, p, sorted) <==> q == p || q in sorted
  {
    if sorted == [] {
      SortedCons(procs, p, []);
    } else {
      var tail := sorted[1..];
      SortedTail(procs, sorted);
      assert sorted == [sorted[0]] + tail;
      if WakesBeforeRef(procs, p, sorted[0]) {
        SortedCons(procs, p, sorted);
      } else {
        hide SortedForWaking;
        InsertSorts(procs, p, tail);
        SortedCons(procs, sorted[0], Insert(procs, p, tail));
      }
    }
  }

  lemma {:induction false} WakeOrderSorts(procs: seq<Proc>, woken: seq<nat>)
    requires forall k :: 0 <= k < |woken| ==> woken[k] < |procs|
    requires forall j, k :: 0 <= j < k < |woken| ==> procs[woken[j]].pid != procs[woken[k]].pid
    ensures SortedForWaking(procs, WakeOrder(procs, woken)) && InArrivalOrder(procs, WakeOrder(procs, woken))
    ensures multiset(WakeOrder(procs, woken)) == multiset(woken)
    ensures forall q :: q in WakeOrder(procs, woken) <==> q in woken
  {
    if woken != [] {
      var tail := woken[1..];
      assert woken == [woken[0]] + tail;
      WakeOrderSorts(procs, tail);
      InsertSorts(procs, woken[0], WakeOrder(procs, tail));
    }
    SortedIsArrivalOrder(procs, WakeOrder(procs, woken));
  }

  lemma FirstIsFirst(procs: seq<Proc>, a: seq<nat>, b: seq<nat>)
    requires a != [] && b != [] && SortedForWaking(procs, a) && SortedForWaking(procs, b)
    requires a[0] in b && b[0] in a
    ensures a[0] == b[0]
  {
    var i :| 0 <= i < |b| && b[i] == a[0];
    var j :| 0 <= j < |a| && a[j] == b[0];
    assert i > 0 ==> WakesBeforeRef(procs, b[0], b[i]);
    assert j > 0 ==> WakesBeforeRef(procs, a[0], a[j]);
  }

  lemma SameWithoutFirst(a: seq<nat>, b: seq<nat>)
    requires a != [] && b != [] && a[0] == b[0] && multiset(a) == multiset(b)
    ensures multiset(a[1..]) == multiset(b[1..])
  {
    var first: multiset<nat> := multiset{a[0]};
    assert a == [a[0]] + a[1..] && b == [b[0]] + b[1..];
    assert multiset(a) == multiset(a[1..]) + first && multiset(b) == multiset(b[1..]) + first;
    Cancel(multiset(a[1..]), multiset(b[1..]), first);
  }

  /** However the sort works, its result is this one: the order has no ties. */
  lemma {:induction false} WakeOrderIsUnique(procs: seq<Proc>, a: seq<nat>, b: seq<nat>)
    requires SortedForWaking(procs, a) && SortedForWaking(procs, b)
    requires multiset(a) == multiset(b)
    ensures a == b
  {
    hide WakesBeforeRef, WakesBefore;
    assert |multiset(a)| == |a| && |multiset(b)| == |b|;
    if a != [] {
      assert a[0] in multiset(b) && b[0] in multiset(a);
      FirstIsFirst(procs, a, b);
      SortedTail(procs, a);
      SortedTail(procs, b);
      SameWithoutFirst(a, b);
      hide SortedForWaking;
      WakeOrderIsUnique(procs, a[1..], b[1..]);
      assert a == [a[0]] + a[1..] && b == [b[0]] + b[1..];
    }
  }

  // ---------------------------------------------------------------------------------------------
  // Snapshot, ticks, collecting

  lemma {:induction false} SnapshotCopies(procs: seq<Proc>, refs: seq<nat>)
    requires forall k :: 0 <= k < |refs| ==> refs[k] < |procs|
    ensures |Snapshot(procs, refs)| == |refs|
    ensures forall k :: 0 <= k < |refs| ==> Snapshot(procs, refs)[k] == procs[refs[k]]
  {
    if refs != [] {
      var n := |refs| - 1;
      SnapshotCopies(procs, refs[..n]);
      assert Snapshot(procs, refs) == Snapshot(procs, refs[..n]) + [procs[refs[n]]];
      assert forall k :: 0 <= k < n ==> refs[..n][k] == refs[k];
      hide Snapshot;
    }
  }

  lemma BeginRound(s: System)
    requires Inv(s) && s.ticker.Resting?
    ensures Inv(Apply(s, TickTurn))
  {
    hide PidsOk, Partition, FinishedOk, ReadyOk, SlotsOk, CoresOk;
    var s' := Apply(s, TickTurn);
    forall k | 0 <= k < |s.sh.sleeping| ensures NotInRound(s.sh, s.sh.sleeping[k]) {
    }
    SnapshotCopies(s.sh.procs, s.sh.sleeping);
    forall j | 0 <= j < |s.sh.sleeping|
      ensures InRound(s'.sh, s.sh.sleeping[j], s'.ticker.before[j], false)
    {
      assert NotInRound(s.sh, s.sh.sleeping[j]);
    }
    assert SleepersOk(s'.sh, s'.ticker);
    assert SlotsOk(s'.sh, s'.cores) && Partition(s'.sh, s'.cores) by { SharedAlike(s.sh, s'.sh, s.cores); }
  }

  lemma SharedAlike(sh: Shared, next: Shared, cores: seq<Core>)
    requires SlotsOk(sh, cores) && Partition(sh, cores)
    requires next.slots == sh.slots && next.coresUsed == sh.coresUsed && |next.procs| == |sh.procs|
    requires Listed(next) == Listed(sh)
    ensures SlotsOk(next, cores) && Partition(next, cores)
  {
  }

  /** A tick touches one sleeper of the snapshot and nobody else. */
  lemma TickOneFrame(s: System)
    requires Inv(s) && s.ticker.Ticking? && s.ticker.k < |s.ticker.sleepers|
    ensures var sh := Apply(s, TickTurn).sh;
            && ReadyOk(sh.procs, sh.ready) && FinishedOk(sh.procs, sh.finished) && ProcsOk(sh.procs)
            && CoresOk(s.cfg, sh.procs, s.cores) && PidsOk(sh.procs, s.makers, sh.nextPid)
  {
    hide CoreOk, Partition, PidsOk, SlotsOk;
    var t := s.ticker;
    var p := t.sleepers[t.k];
    assert p == s.sh.sleeping[t.k];
    assert InRound(s.sh, p, t.before[t.k], false);
    SleepingExclusively(s.sh, s.cores);
    TickSleepStep(s.sh.procs[p]);
    var sh := Apply(s, TickTurn).sh;
    CoresFrame(s.cfg, s.sh.procs, sh.procs, s.cores, |s.cores|);
    PidsFrame(s.sh.procs, p, TickSleep(s.sh.procs[p]), s.makers, s.sh.nextPid);
  }

  lemma TickOneSleepers(s: System)
    requires Inv(s) && s.ticker.Ticking? && s.ticker.k < |s.ticker.sleepers|
    ensures var s' := Apply(s, TickTurn); SleepersOk(s'.sh, s'.ticker)
  {
    hide CoresOk, Partition, PidsOk, SlotsOk, ReadyOk, FinishedOk, ProcsOk, Good, TickSleep, Sleeps;
    var t := s.ticker;
    var p := t.sleepers[t.k];
    var s' := Apply(s, TickTurn);
    SleepingExclusively(s.sh, s.cores);
    assert InRound(s.sh, p, t.before[t.k], false);
    forall j | 0 <= j < |t.sleepers| ensures InRound(s'.sh, t.sleepers[j], t.before[j], j < t.k + 1) {
      assert InRound(s.sh, t.sleepers[j], t.before[j], j < t.k);
      assert s.sh.sleeping[j] == t.sleepers[j];
    }
    forall j | |t.sleepers| <= j < |s.sh.sleeping| ensures NotInRound(s'.sh, s.sh.sleeping[j]) {
      assert NotInRound(s.sh, s.sh.sleeping[j]);
      assert s.sh.sleeping[j] != s.sh.sleeping[t.k];
    }
  }

  lemma TickOne(s: System)
    requires Inv(s) && s.ticker.Ticking? && s.ticker.k < |s.ticker.sleepers|
    ensures Inv(Apply(s, TickTurn))
  {
    hide CoresOk, Partition, PidsOk, SlotsOk, ReadyOk, FinishedOk, SleepersOk, ProcsOk;
    var s' := Apply(s, TickTurn);
    TickOneFrame(s);
    TickOneSleepers(s);
    SharedAlike(s.sh, s'.sh, s.cores);
  }

  lemma TickedState(sh: Shared, p: nat, before: Proc)
    requires InRound(sh, p, before, true)
    ensures StateOf(sh.procs, p) != WAITING <==> before.sleepRemaining == 1
  {
    TickSleepStep(before);
  }

  lemma CollectOne(s: System)
    requires Inv(s) && s.ticker.Collecting? && s.ticker.k < |s.ticker.sleepers|
    ensures Inv(Apply(s, TickTurn))
  {
    hide CoresOk, Partition, PidsOk, SlotsOk, ReadyOk, FinishedOk, ProcsOk, InRound, NotInRound;
    var t := s.ticker;
    assert InRound(s.sh, t.sleepers[t.k], t.before[t.k], t.k < Ticked(t));
    TickedState(s.sh, t.sleepers[t.k], t.before[t.k]);
    var s' := Apply(s, TickTurn);
    assert s'.ticker.woken == Due(t.sleepers, t.before, t.k + 1);
    forall j | 0 <= j < |t.sleepers| ensures InRound(s.sh, t.sleepers[j], t.before[j], true) {
      assert InRound(s.sh, t.sleepers[j], t.before[j], j < Ticked(t));
    }
  }

  lemma {:induction false} DueMembers(sleepers: seq<nat>, before: seq<Proc>, k: nat, p: nat)
    requires k <= |sleepers| == |before|
    ensures p in Due(sleepers, before, k) <==> exists j :: 0 <= j < k && sleepers[j] == p && before[j].sleepRemaining == 1
  {
    if k > 0 {
      DueMembers(sleepers, before, k - 1, p);
    }
  }

  lemma {:induction false} DueDistinct(sleepers: seq<nat>, before: seq<Proc>, k: nat)
    requires k <= |sleepers| == |before| && Distinct(sleepers)
    ensures Distinct(Due(sleepers, before, k))
    ensures forall p :: p in Due(sleepers, before, k) ==> p in sleepers[..k]
  {
    if k > 0 {
      DueDistinct(sleepers, before, k - 1);
      assert sleepers[..k] == sleepers[..k - 1] + [sleepers[k - 1]];
      assert sleepers[k - 1] !in sleepers[..k - 1];
    }
  }

  lemma SortWoken(s: System)
    requires Inv(s) && s.ticker.Collecting? && s.ticker.k == |s.ticker.sleepers|
    ensures Inv(Apply(s, TickTurn))
  {
    hide CoresOk, Partition, SlotsOk, ReadyOk, FinishedOk, ProcsOk, InRound, NotInRound;
    var t := s.ticker;
    var procs := s.sh.procs;
    SleepingExclusively(s.sh, s.cores);
    DueDistinct(t.sleepers, t.before, |t.sleepers|);
    DueAreSleepers(t.sleepers, t.before, |t.sleepers|);
    assert forall p :: p in t.sleepers ==> p in s.sh.sleeping;
    assert t.woken == Due(t.sleepers, t.before, |t.sleepers|);
    forall k | 0 <= k < |t.woken| ensures t.woken[k] in s.sh.sleeping {
      assert t.woken[k] in Due(t.sleepers, t.before, |t.sleepers|);
    }
    WakeOrderSorts(procs, t.woken);
    var s' := Apply(s, TickTurn);
    assert RoundOk(procs, s'.ticker);
    forall j | 0 <= j < |t.sleepers| ensures InRound(s.sh, t.sleepers[j], t.before[j], true) {
      assert InRound(s.sh, t.sleepers[j], t.before[j], j < Ticked(t));
    }
  }

  // ---------------------------------------------------------------------------------------------
  // The rebuild

  /** All that has been collected is still asleep on the engine's list, so all of it wakes. */
  lemma WokenAreTracked(s: System)
    requires Inv(s) && s.ticker.Rebuilding?
    ensures var woken := s.ticker.woken;
            && Those(woken, Those(s.sh.sleeping, woken)) == woken
            && multiset(woken) + multiset(Others(s.sh.sleeping, woken)) == multiset(s.sh.sleeping)
            && forall p :: p in woken <==> p in Due(s.ticker.sleepers, s.ticker.before, |s.ticker.sleepers|)
  {
    hide CoresOk, Partition, SlotsOk, ReadyOk, FinishedOk, ProcsOk, PidsOk, InRound, NotInRound;
    var t := s.ticker;
    var due := Due(t.sleepers, t.before, |t.sleepers|);
    SleepingExclusively(s.sh, s.cores);
    DueDistinct(t.sleepers, t.before, |t.sleepers|);
    DueAreSleepers(t.sleepers, t.before, |t.sleepers|);
    forall p ensures p in t.woken <==> p in due {
      assert p in multiset(t.woken) <==> p in multiset(due);
    }
    assert forall p :: p in due ==> p in s.sh.sleeping;
    forall p ensures multiset(t.woken)[p] <= 1 {
      DistinctIsAtMostOnce(due, p);
    }
    AtMostOnceIsDistinct(t.woken);
    var tracked := Those(s.sh.sleeping, t.woken);
    SplitKeepsAll(s.sh.sleeping, t.woken);
    ThoseAll(t.woken, tracked);
    forall p ensures multiset(tracked)[p] <= 1 {
      DistinctIsAtMostOnce(s.sh.sleeping, p);
      assert (multiset(tracked) + multiset(Others(s.sh.sleeping, t.woken)))[p] == multiset(s.sh.sleeping)[p];
    }
    AtMostOnceIsDistinct(tracked);
    SameElementsOnce(t.woken, tracked);
  }

  /** A member of the snapshot at the end of a round: READY if it was due, still WAITING if not. */
  lemma EndForSnapshot(s: System, j: nat)
    requires Inv(s) && s.ticker.Rebuilding? && j < |s.ticker.sleepers|
    ensures j < |s.sh.sleeping| && s.sh.sleeping[j] == s.ticker.sleepers[j]
    ensures var p := s.sh.sleeping[j];
            && p < |s.sh.procs| == |s.sh.parkedAt|
            && (p in s.ticker.woken ==>
                  s.sh.procs[p].state == READY && s.sh.tick - s.sh.parkedAt[p] == LastSleep(s.sh.procs[p]))
            && (p !in s.ticker.woken ==> Sleeps(s.sh.procs[p], s.sh.parkedAt[p], s.sh.tick))
  {
    hide CoresOk, Partition, SlotsOk, ReadyOk, FinishedOk, ProcsOk, PidsOk, Good, TickSleep, RoundOk;
    var t := s.ticker;
    var p := t.sleepers[j];
    assert s.sh.sleeping[j] == p;
    assert InRound(s.sh, p, t.before[j], j < Ticked(t));
    TickSleepStep(t.before[j]);
    assert p in t.woken <==> t.before[j].sleepRemaining == 1 by { SnapshotWoken(s, j); }
  }

  lemma SnapshotWoken(s: System, j: nat)
    requires Inv(s) && s.ticker.Rebuilding? && j < |s.ticker.sleepers|
    ensures j < |s.ticker.before|
    ensures s.ticker.sleepers[j] in s.ticker.woken <==> s.ticker.before[j].sleepRemaining == 1
  {
    hide CoresOk, Partition, SlotsOk, ReadyOk, FinishedOk, ProcsOk, PidsOk, InRound, NotInRound, RoundOk;
    var t := s.ticker;
    WokenAreTracked(s);
    SleepingExclusively(s.sh, s.cores);
    DueMembers(t.sleepers, t.before, |t.sleepers|, t.sleepers[j]);
    forall i | 0 <= i < |t.sleepers| && t.sleepers[i] == t.sleepers[j] ensures i == j {
      assert t.sleepers[i] == s.sh.sleeping[i] && t.sleepers[j] == s.sh.sleeping[j];
    }
  }

  /** A process parked since the snapshot is not woken. */
  lemma EndForLate(s: System, j: nat)
    requires Inv(s) && s.ticker.Rebuilding? && |s.ticker.sleepers| <= j < |s.sh.sleeping|
    ensures var p := s.sh.sleeping[j];
            && p < |s.sh.procs| == |s.sh.parkedAt| && p !in s.ticker.woken
            && Sleeps(s.sh.procs[p], s.sh.parkedAt[p], s.sh.tick)
  {
    hide CoresOk, Partition, SlotsOk, ReadyOk, FinishedOk, ProcsOk, PidsOk, InRound, RoundOk, Sleeps;
    var t := s.ticker;
    WokenAreTracked(s);
    SleepingExclusively(s.sh, s.cores);
    DueAreSleepers(t.sleepers, t.before, |t.sleepers|);
    assert NotInRound(s.sh, s.sh.sleeping[j]);
    forall i | 0 <= i < |t.sleepers| ensures t.sleepers[i] != s.sh.sleeping[j] {
      assert t.sleepers[i] == s.sh.sleeping[i];
    }
    assert s.sh.sleeping[j] !in t.sleepers;
  }

  /** The processes at the end of a round: the due sleepers are READY, all others WAITING. */
  lemma EndOfRound(s: System, j: nat)
    requires Inv(s) && s.ticker.Rebuilding? && j < |s.sh.sleeping|
    ensures var p := s.sh.sleeping[j];
            && p < |s.sh.procs| == |s.sh.parkedAt|
            && (p in s.ticker.woken ==>
                  && j < |s.ticker.sleepers| && s.sh.procs[p].state == READY
                  && s.sh.tick - s.sh.parkedAt[p] == LastSleep(s.sh.procs[p]))
            && (p !in s.ticker.woken ==> Sleeps(s.sh.procs[p], s.sh.parkedAt[p], s.sh.tick))
  {
    hide Inv, Sleeps, LastSleep;
    if j < |s.ticker.sleepers| {
      EndForSnapshot(s, j);
    } else {
      EndForLate(s, j);
    }
  }

  lemma RebuildLists(s: System)
    requires Inv(s) && s.ticker.Rebuilding?
    ensures var s' := Apply(s, TickTurn);
            && ReadyOk(s'.sh.procs, s'.sh.ready) && SleepersOk(s'.sh, s'.ticker)
            && Listed(s'.sh) == Listed(s.sh)
  {
    hide CoresOk, Partition, SlotsOk, FinishedOk, ProcsOk, PidsOk, InRound;
    var t := s.ticker;
    var s' := Apply(s, TickTurn);
    WokenAreTracked(s);
    SplitKeepsAll(s.sh.sleeping, t.woken);
    assert s'.sh.ready == t.woken + s.sh.ready;
    assert multiset(s'.sh.ready) == multiset(t.woken) + multiset(s.sh.ready);
    assert s'.sh.sleeping == Others(s.sh.sleeping, t.woken);
    forall p | p in s'.sh.ready ensures RunnableRef(s.sh.procs, p) {
      if p in t.woken {
        WokenAreSleepers(t.sleepers, t.before, t.woken);
        assert p in s.sh.sleeping;
        var j :| 0 <= j < |s.sh.sleeping| && s.sh.sleeping[j] == p;
        EndOfRound(s, j);
      }
    }
    forall k | 0 <= k < |s'.sh.sleeping| ensures NotInRound(s'.sh, s'.sh.sleeping[k]) {
      var p := s'.sh.sleeping[k];
      assert p in s.sh.sleeping && p !in t.woken;
      var j :| 0 <= j < |s.sh.sleeping| && s.sh.sleeping[j] == p;
      EndOfRound(s, j);
    }
  }

  lemma RebuildKeepsInv(s: System)
    requires Inv(s) && s.ticker.Rebuilding?
    ensures Inv(Apply(s, TickTurn))
  {
    hide CoresOk, Partition, SlotsOk, FinishedOk, ProcsOk, PidsOk, ReadyOk, SleepersOk;
    var s' := Apply(s, TickTurn);
    RebuildLists(s);
    SharedAlike(s.sh, s'.sh, s.cores);
  }

  lemma TickTurnKeepsInv(s: System)
    requires Inv(s)
    ensures Inv(Apply(s, TickTurn))
  {
    hide CoresOk, Partition, SlotsOk, FinishedOk, ProcsOk, PidsOk, ReadyOk;
    match s.ticker
    case Resting => BeginRound(s);
    case Ticking(sleepers, before, k) =>
      if k < |sleepers| {
        TickOne(s);
      } else {
        assert forall j :: 0 <= j < |sleepers| ==> InRound(s.sh, sleepers[j], before[j], j < k);
      }
    case Collecting(sleepers, before, k, woken) =>
      if k < |sleepers| { CollectOne(s); } else { SortWoken(s); }
    case Rebuilding(_, _, _) => RebuildKeepsInv(s);
  }
}
