/** Where every process is. The ready queue, the sleepers, the finished list and the hands of the
    cores are added up as multisets; conservation says that the sum holds every process once. */
module Places {
  import opened Options
  import opened SchedulerSpec
  import opened Threads

  function Bag(p: Option<nat>): multiset<nat> {
    if p.None? then multiset{} else multiset{p.value}
  }

  /** What is in a row of slots. */
  function Contents(slots: seq<Option<nat>>): multiset<nat> {
    if slots == [] then multiset{} else Contents(slots[..|slots| - 1]) + Bag(slots[|slots| - 1])
  }

  function Hands(cores: seq<Core>): seq<Option<nat>> {
    seq(|cores|, i requires 0 <= i < |cores| => Held(cores[i]))
  }

  function HeldBag(cores: seq<Core>): multiset<nat> {
    Contents(Hands(cores))
  }

  /** Each of the first `n` references once. */
  function AllRefs(n: nat): multiset<nat> {
    if n == 0 then multiset{} else AllRefs(n - 1) + multiset{n - 1}
  }

  ghost predicate Partition(sh: Shared, cores: seq<Core>) {
    multiset(sh.ready) + multiset(sh.sleeping) + multiset(sh.finished) + HeldBag(cores) == AllRefs(|sh.procs|)
  }

  lemma {:induction false} AllRefsCount(n: nat, p: nat)
    ensures AllRefs(n)[p] == if p < n then 1 else 0
  {
    if n > 0 {
      AllRefsCount(n - 1, p);
    }
  }

  /** The contents in terms of the last slot, for a row that is known by its parts. */
  lemma ContentsSnoc(slots: seq<Option<nat>>, front: seq<Option<nat>>, last: Option<nat>)
    requires slots == front + [last]
    ensures Contents(slots) == Contents(front) + Bag(last)
  {
    assert slots[..|slots| - 1] == front;
  }

  lemma {:induction false} ContentsUpdate(slots: seq<Option<nat>>, i: nat, p: Option<nat>)
    requires i < |slots|
    ensures Contents(slots[i := p]) + Bag(slots[i]) == Contents(slots) + Bag(p)
  {
    var n := |slots| - 1;
    var front, last := slots[..n], slots[n];
    ContentsSnoc(slots, front, last);
    if i == n {
      ContentsSnoc(slots[i := p], front, p);
      hide Contents, Bag;
      Exchange(Contents(front), Bag(last), Bag(p));
    } else {
      ContentsSnoc(slots[i := p], front[i := p], last);
      hide Bag;
      ContentsUpdate(front, i, p);
      hide Contents;
      ExchangeBeside(Contents(front[i := p]), Bag(slots[i]), Contents(front), Bag(p), Bag(last));
    }
  }

  lemma Exchange(a: multiset<nat>, x: multiset<nat>, y: multiset<nat>)
    ensures (a + y) + x == (a + x) + y
  {
  }

  lemma ExchangeBeside(a: multiset<nat>, x: multiset<nat>, b: multiset<nat>, y: multiset<nat>, beside: multiset<nat>)
    requires a + x == b + y
    ensures (a + beside) + x == (b + beside) + y
  {
    assert (a + beside) + x == (a + x) + beside;
    assert (b + beside) + y == (b + y) + beside;
  }

  lemma HeldBagUpdate(cores: seq<Core>, i: nat, c: Core)
    requires i < |cores|
    ensures HeldBag(cores[i := c]) + Bag(Held(cores[i])) == HeldBag(cores) + Bag(Held(c))
  {
    ContentsUpdate(Hands(cores), i, Held(c));
    assert Hands(cores[i := c]) == Hands(cores)[i := Held(c)];
  }

  lemma {:induction false} SlotIsInContents(slots: seq<Option<nat>>, i: nat)
    requires i < |slots|
    ensures Bag(slots[i]) <= Contents(slots)
  {
    if i < |slots| - 1 {
      SlotIsInContents(slots[..|slots| - 1], i);
    }
  }

  lemma {:induction false} TwoSlotsCountTwice(slots: seq<Option<nat>>, i: nat, j: nat, p: nat)
    requires i < j < |slots| && slots[i] == slots[j] == Some(p)
    ensures Contents(slots)[p] >= 2
  {
    var n := |slots| - 1;
    if j == n {
      SlotIsInContents(slots[..n], i);
    } else {
      TwoSlotsCountTwice(slots[..n], i, j, p);
    }
  }

  lemma {:induction false} ContentsHaveSlot(slots: seq<Option<nat>>, p: nat) returns (i: nat)
    requires p in Contents(slots)
    ensures i < |slots| && slots[i] == Some(p)
  {
    var n := |slots| - 1;
    if slots[n] == Some(p) {
      i := n;
    } else {
      i := ContentsHaveSlot(slots[..n], p);
    }
  }

  lemma CountAtLeast(s: seq<nat>, i: nat, j: nat)
    requires i < j < |s| && s[i] == s[j]
    ensures multiset(s)[s[i]] >= 2
  {
    assert s == s[..j] + s[j..];
    assert s[..j][i] == s[i] && s[j..][0] == s[i];
    assert multiset(s) == multiset(s[..j]) + multiset(s[j..]);
  }

  ghost predicate Distinct(s: seq<nat>) {
    forall i, j :: 0 <= i < j < |s| ==> s[i] != s[j]
  }

  lemma AtMostOnceIsDistinct(s: seq<nat>)
    requires forall p :: multiset(s)[p] <= 1
    ensures Distinct(s)
  {
    forall i, j | 0 <= i < j < |s| ensures s[i] != s[j] {
      if s[i] == s[j] {
        CountAtLeast(s, i, j);
      }
    }
  }

  lemma DistinctIsAtMostOnce(s: seq<nat>, p: nat)
    requires Distinct(s)
    ensures multiset(s)[p] == if p in s then 1 else 0
  {
    if s != [] {
      var n := |s| - 1;
      assert s == s[..n] + [s[n]];
      DistinctIsAtMostOnce(s[..n], p);
    }
  }

  // ---------------------------------------------------------------------------------------------
  // What a partition says about one process

  /** The number of places in which a process is: one if it exists. */
  lemma PlaceCount(sh: Shared, cores: seq<Core>, p: nat)
    requires Partition(sh, cores)
    ensures multiset(sh.ready)[p] + multiset(sh.sleeping)[p] + multiset(sh.finished)[p] + HeldBag(cores)[p]
            == if p < |sh.procs| then 1 else 0
  {
    AllRefsCount(|sh.procs|, p);
    var sum := multiset(sh.ready) + multiset(sh.sleeping) + multiset(sh.finished) + HeldBag(cores);
    assert sum[p] == AllRefs(|sh.procs|)[p];
  }

  lemma HeldCount(cores: seq<Core>, i: nat, p: nat)
    requires i < |cores| && Held(cores[i]) == Some(p)
    ensures HeldBag(cores)[p] >= 1
    ensures HeldBag(cores)[p] == 1 ==> forall j :: 0 <= j < |cores| && j != i ==> Held(cores[j]) != Some(p)
  {
    var hands := Hands(cores);
    SlotIsInContents(hands, i);
    assert Bag(hands[i])[p] == 1;
    if j :| 0 <= j < |cores| && j != i && Held(cores[j]) == Some(p) {
      TwoSlotsCountTwice(hands, if i < j then i else j, if i < j then j else i, p);
    }
  }

  lemma HeldExclusively(sh: Shared, cores: seq<Core>, i: nat, p: nat)
    requires Partition(sh, cores) && i < |cores| && Held(cores[i]) == Some(p)
    ensures p < |sh.procs|
    ensures p !in sh.ready && p !in sh.sleeping && p !in sh.finished
    ensures forall j :: 0 <= j < |cores| && j != i ==> Held(cores[j]) != Some(p)
  {
    PlaceCount(sh, cores, p);
    HeldCount(cores, i, p);
    NotInList(sh.ready, p);
    NotInList(sh.sleeping, p);
    NotInList(sh.finished, p);
  }

  lemma NotInList(s: seq<nat>, p: nat)
    ensures multiset(s)[p] == 0 <==> p !in s
  {
    assert p in multiset(s) <==> p in s;
  }

  lemma SleepingExclusively(sh: Shared, cores: seq<Core>)
    requires Partition(sh, cores)
    ensures Distinct(sh.sleeping)
    ensures forall p :: p in sh.sleeping ==> p < |sh.procs| && p !in sh.ready && p !in sh.finished
    ensures forall i :: 0 <= i < |cores| && Held(cores[i]).Some? ==> Held(cores[i]).value !in sh.sleeping
  {
    forall p ensures multiset(sh.sleeping)[p] <= 1 {
      PlaceCount(sh, cores, p);
    }
    AtMostOnceIsDistinct(sh.sleeping);
    forall p | p in sh.sleeping ensures p < |sh.procs| && p !in sh.ready && p !in sh.finished {
      PlaceCount(sh, cores, p);
      NotInList(sh.sleeping, p);
      NotInList(sh.ready, p);
      NotInList(sh.finished, p);
    }
    forall i | 0 <= i < |cores| && Held(cores[i]).Some? ensures Held(cores[i]).value !in sh.sleeping {
      HeldExclusively(sh, cores, i, Held(cores[i]).value);
    }
  }

  lemma ReadyExclusively(sh: Shared, cores: seq<Core>)
    requires Partition(sh, cores)
    ensures Distinct(sh.ready)
    ensures forall p :: p in sh.ready ==> p < |sh.procs| && p !in sh.sleeping && p !in sh.finished
    ensures forall i :: 0 <= i < |cores| && Held(cores[i]).Some? ==> Held(cores[i]).value !in sh.ready
  {
    forall p ensures multiset(sh.ready)[p] <= 1 {
      PlaceCount(sh, cores, p);
    }
    AtMostOnceIsDistinct(sh.ready);
    forall p | p in sh.ready ensures p < |sh.procs| && p !in sh.sleeping && p !in sh.finished {
      PlaceCount(sh, cores, p);
      NotInList(sh.ready, p);
      NotInList(sh.sleeping, p);
      NotInList(sh.finished, p);
    }
    forall i | 0 <= i < |cores| && Held(cores[i]).Some? ensures Held(cores[i]).value !in sh.ready {
      HeldExclusively(sh, cores, i, Held(cores[i]).value);
    }
  }

  /** Every process is somewhere. */
  lemma SomewherePlaced(sh: Shared, cores: seq<Core>, p: nat)
    requires Partition(sh, cores) && p < |sh.procs|
    ensures p in sh.ready || p in sh.sleeping || p in sh.finished || exists i :: 0 <= i < |cores| && Held(cores[i]) == Some(p)
  {
    PlaceCount(sh, cores, p);
    NotInList(sh.ready, p);
    NotInList(sh.sleeping, p);
    NotInList(sh.finished, p);
    if HeldBag(cores)[p] > 0 {
      var i := ContentsHaveSlot(Hands(cores), p);
      assert Hands(cores)[i] == Held(cores[i]);
    }
  }

  // ---------------------------------------------------------------------------------------------
  // Moving processes between places

  ghost function Listed(sh: Shared): multiset<nat> {
    multiset(sh.ready) + multiset(sh.sleeping) + multiset(sh.finished)
  }

  lemma Cancel(a: multiset<nat>, b: multiset<nat>, x: multiset<nat>)
    requires a + x == b + x
    ensures a == b
  {
    forall p ensures a[p] == b[p] {
      assert (a + x)[p] == (b + x)[p];
    }
  }

  /** What a core takes from the lists it holds, and what it puts there it held. */
  lemma PartitionMove(sh: Shared, next: Shared, cores: seq<Core>, i: nat, c: Core)
    requires Partition(sh, cores) && i < |cores|
    requires |next.procs| == |sh.procs|
    requires Listed(next) + Bag(Held(c)) == Listed(sh) + Bag(Held(cores[i]))
    ensures Partition(next, cores[i := c])
  {
    HeldBagUpdate(cores, i, c);
    var before, after := HeldBag(cores), HeldBag(cores[i := c]);
    var gave, got := Bag(Held(cores[i])), Bag(Held(c));
    calc {
      (Listed(next) + after) + gave;
      Listed(next) + (after + gave);
      Listed(next) + (before + got);
      (Listed(next) + got) + before;
      (Listed(sh) + gave) + before;
      (Listed(sh) + before) + gave;
    }
    Cancel(Listed(next) + after, Listed(sh) + before, gave);
  }

  // ---------------------------------------------------------------------------------------------
  // Splitting a list

  lemma {:induction false} SplitKeepsAll(s: seq<nat>, keep: seq<nat>)
    ensures multiset(Those(s, keep)) + multiset(Others(s, keep)) == multiset(s)
    ensures forall p :: p in Those(s, keep) <==> p in s && p in keep
    ensures forall p :: p in Others(s, keep) <==> p in s && p !in keep
  {
    if s != [] {
      var n := |s| - 1;
      assert s == s[..n] + [s[n]];
      SplitKeepsAll(s[..n], keep);
    }
  }

  lemma {:induction false} ThoseAll(s: seq<nat>, keep: seq<nat>)
    requires forall p :: p in s ==> p in keep
    ensures Those(s, keep) == s
  {
    if s != [] {
      var n := |s| - 1;
      assert s == s[..n] + [s[n]];
      ThoseAll(s[..n], keep);
    }
  }

  lemma {:induction false} OthersAll(s: seq<nat>, drop: seq<nat>)
    requires forall p :: p in s ==> p !in drop
    ensures Others(s, drop) == s
  {
    if s != [] {
      var n := |s| - 1;
      assert s == s[..n] + [s[n]];
      OthersAll(s[..n], drop);
    }
  }

  lemma {:induction false} OthersConcat(a: seq<nat>, b: seq<nat>, drop: seq<nat>)
    ensures Others(a + b, drop) == Others(a, drop) + Others(b, drop)
  {
    if b == [] {
      assert a + b == a;
    } else {
      var n := |b| - 1;
      assert (a + b)[..|a + b| - 1] == a + b[..n];
      OthersConcat(a, b[..n], drop);
    }
  }

  lemma SameElementsOnce(s: seq<nat>, t: seq<nat>)
    requires Distinct(s) && Distinct(t)
    requires forall p :: p in s <==> p in t
    ensures multiset(s) == multiset(t)
  {
    forall p ensures multiset(s)[p] == multiset(t)[p] {
      DistinctIsAtMostOnce(s, p);
      DistinctIsAtMostOnce(t, p);
    }
  }
}
