/** Running many model cells side by side under one frozen budget: processes are launched as room allows, finish in any
    order, and their receipts are handed back in the order of the calls.

    `schedule[t]` says which processes have exited when round `t` polls them; a missing receipt is a process that
    failed.
 */
module CellScheduler {
  import opened Values

  datatype Allocation = Allocation(cpu: int, memory: int, exclusive: bool)

  datatype Limits = Limits(cpu: int, memory: int, cells: nat)

  const BATCH_LIMITS: Limits := Limits(8, 40, 2)

  datatype RunError = OverBudget | ProcessFailed | StillRunning

  predicate Affordable(a: Allocation) {
    0 < a.cpu <= BATCH_LIMITS.cpu && 0 < a.memory <= BATCH_LIMITS.memory
  }

  predicate Indices(active: seq<nat>, n: nat) {
    forall k :: 0 <= k < |active| ==> active[k] < n
  }

  function Cpu(allocations: seq<Allocation>, active: seq<nat>): int
    requires Indices(active, |allocations|)
  {
    if active == [] then 0 else Cpu(allocations, active[..|active| - 1]) + allocations[active[|active| - 1]].cpu
  }

  function Memory(allocations: seq<Allocation>, active: seq<nat>): int
    requires Indices(active, |allocations|)
  {
    if active == [] then 0 else Memory(allocations, active[..|active| - 1]) + allocations[active[|active| - 1]].memory
  }

  /** The processes running together stay within the budget, and an exclusive one runs alone. */
  ghost predicate Fits(allocations: seq<Allocation>, active: seq<nat>) {
    && Indices(active, |allocations|) && |active| <= BATCH_LIMITS.cells
    && Cpu(allocations, active) <= BATCH_LIMITS.cpu && Memory(allocations, active) <= BATCH_LIMITS.memory
    && forall k :: 0 <= k < |active| && allocations[active[k]].exclusive ==> |active| == 1
  }

  predicate HasExclusive(allocations: seq<Allocation>, active: seq<nat>)
    requires Indices(active, |allocations|)
  {
    exists k :: 0 <= k < |active| && allocations[active[k]].exclusive
  }

  lemma {:induction false} UsageConcat(allocations: seq<Allocation>, a: seq<nat>, b: seq<nat>)
    requires Indices(a, |allocations|) && Indices(b, |allocations|)
    ensures Indices(a + b, |allocations|)
    ensures Cpu(allocations, a + b) == Cpu(allocations, a) + Cpu(allocations, b)
    ensures Memory(allocations, a + b) == Memory(allocations, a) + Memory(allocations, b)
    decreases |b|
  {
    if b == [] {
      assert a + b == a;
    } else {
      assert (a + b)[..|a + b| - 1] == a + b[..|b| - 1];
      UsageConcat(allocations, a, b[..|b| - 1]);
    }
  }

  lemma {:induction false} UsageOne(allocations: seq<Allocation>, a: seq<nat>, i: nat)
    requires Indices(a, |allocations|) && i < |allocations|
    ensures Indices(a + [i], |allocations|)
    ensures Cpu(allocations, a + [i]) == Cpu(allocations, a) + allocations[i].cpu
    ensures Memory(allocations, a + [i]) == Memory(allocations, a) + allocations[i].memory
  {
    assert (a + [i])[..|a + [i]| - 1] == a;
  }

  /** A process that has exited frees its share. */
  lemma {:induction false} FitsWithout(allocations: seq<Allocation>, a: seq<nat>, i: nat, b: seq<nat>)
    requires Fits(allocations, a + [i] + b) && i < |allocations| && Affordable(allocations[i])
    ensures Fits(allocations, a + b)
  {
    IndicesAround(allocations, a, i, b);
    UsageOne(allocations, a, i);
    UsageConcat(allocations, a + [i], b);
    UsageConcat(allocations, a, b);
    forall k | 0 <= k < |a + b|
      ensures (a + b)[k] == (a + [i] + b)[if k < |a| then k else k + 1]
    {
    }
    hide Cpu, Memory;
  }

  lemma {:induction false} IndicesAround(allocations: seq<Allocation>, a: seq<nat>, i: nat, b: seq<nat>)
    requires Indices(a + [i] + b, |allocations|)
    ensures Indices(a, |allocations|) && Indices(b, |allocations|) && Indices(a + b, |allocations|)
  {
    var all := a + [i] + b;
    assert forall k :: 0 <= k < |a| ==> a[k] == all[k];
    assert forall k :: 0 <= k < |b| ==> b[k] == all[|a| + 1 + k];
  }

  /** There is room for one more process. */
  predicate Launchable(allocations: seq<Allocation>, active: seq<nat>, cpu: int, memory: int, i: nat)
    requires Indices(active, |allocations|) && i < |allocations|
  {
    && |active| < BATCH_LIMITS.cells
    && cpu + allocations[i].cpu <= BATCH_LIMITS.cpu
    && memory + allocations[i].memory <= BATCH_LIMITS.memory
    && !(allocations[i].exclusive && active != [])
    && !HasExclusive(allocations, active)
  }

  lemma {:induction false} LaunchFits(allocations: seq<Allocation>, active: seq<nat>, i: nat)
    requires Fits(allocations, active) && i < |allocations|
    requires Launchable(allocations, active, Cpu(allocations, active), Memory(allocations, active), i)
    ensures Fits(allocations, active + [i])
  {
    UsageOne(allocations, active, i);
    hide Cpu, Memory;
  }

  function Range(n: nat): seq<nat> {
    seq(n, i => i)
  }

  lemma {:induction false} Moved(a: seq<nat>, b: seq<nat>, c: seq<nat>, d: seq<nat>, i: nat)
    requires multiset(a) + multiset(b) == multiset(c) + multiset(d)
    ensures multiset(a + [i]) + multiset(b) == multiset(c + [i]) + multiset(d)
    ensures multiset(a) + multiset(b + [i]) == multiset(c + [i]) + multiset(d)
  {
    Shifted(multiset(a), multiset(b), multiset(c), multiset(d), multiset{i});
    assert multiset(a + [i]) == multiset(a) + multiset{i};
    assert multiset(b + [i]) == multiset(b) + multiset{i};
    assert multiset(c + [i]) == multiset(c) + multiset{i};
  }

  lemma {:induction false} Shifted(a: multiset<nat>, b: multiset<nat>, c: multiset<nat>, d: multiset<nat>,
                                   x: multiset<nat>)
    requires a + b == c + d
    ensures a + x + b == c + x + d && a + (b + x) == c + x + d
  {
    assert a + x + b == a + b + x == c + d + x == c + x + d;
    assert a + (b + x) == a + b + x;
  }

  /** Regrouping: what is pending, running and done stays the same in total. */
  lemma {:induction false} Regrouped(total: multiset<nat>, p: multiset<nat>, a: multiset<nat>, d: multiset<nat>,
                                     p1: multiset<nat>, a1: multiset<nat>, a2: multiset<nat>, d2: multiset<nat>)
    requires p + a + d == total && p1 + a1 == p + a && a2 + d2 == a1 + d
    ensures p1 + a2 + d2 == total
  {
    assert p1 + a2 + d2 == p1 + (a2 + d2);
    assert p1 + (a1 + d) == p1 + a1 + d;
  }

  /** Launches pending processes until none of those left would fit beside the running ones; if anything is pending,
      something runs afterwards. */
  method Launch(allocations: seq<Allocation>, waiting: seq<nat>, running: seq<nat>, launched: seq<nat>)
    returns (pending: seq<nat>, active: seq<nat>, launches: seq<nat>, ghost occupancy: seq<seq<nat>>)
    requires forall i :: 0 <= i < |allocations| ==> Affordable(allocations[i])
    requires Indices(waiting, |allocations|) && Fits(allocations, running)
    ensures Indices(pending, |allocations|) && Indices(active, |allocations|) && Fits(allocations, active)
    ensures AllFit(allocations, occupancy)
    ensures multiset(pending) + multiset(active) == multiset(waiting) + multiset(running)
    ensures multiset(pending) + multiset(launches) == multiset(waiting) + multiset(launched)
    ensures active == [] ==> pending == []
    ensures forall i :: i in pending ==> !Fits(allocations, active + [i])
  {
    var usedCpu, usedMemory := Cpu(allocations, running), Memory(allocations, running);
    var kept: seq<nat> := [];
    active, launches, occupancy := running, launched, [running];
    hide Fits, Launchable, Affordable, Cpu, Memory;
    for k := 0 to |waiting|
      invariant Indices(kept, |allocations|) && Indices(active, |allocations|) && Fits(allocations, active)
      invariant usedCpu == Cpu(allocations, active) && usedMemory == Memory(allocations, active)
      invariant forall a :: a in occupancy ==> Fits(allocations, a)
      invariant multiset(kept) + multiset(active) == multiset(waiting[..k]) + multiset(running)
      invariant multiset(kept) + multiset(launches) == multiset(waiting[..k]) + multiset(launched)
      invariant |kept| <= k && (k > 0 ==> active != [])
      invariant forall j :: j in kept ==> !Fits(allocations, active + [j])
    {
      var i := waiting[k];
      assert waiting[..k + 1] == waiting[..k] + [i];
      Moved(kept, active, waiting[..k], running, i);
      Moved(kept, launches, waiting[..k], launched, i);
      if !Launchable(allocations, active, usedCpu, usedMemory, i) {
        AloneLaunches(allocations, active, i);
        NoRoom(allocations, active, i);
        kept := kept + [i];
        continue;
      }
      LaunchFits(allocations, active, i);
      forall j | j in kept
        ensures !Fits(allocations, active + [i] + [j])
      {
        if Fits(allocations, active + [i] + [j]) {
          FitsWithout(allocations, active, i, [j]);
        }
      }
      UsageOne(allocations, active, i);
      active, launches := active + [i], launches + [i];
      usedCpu, usedMemory := usedCpu + allocations[i].cpu, usedMemory + allocations[i].memory;
      occupancy := occupancy + [active];
    }
    assert waiting[..|waiting|] == waiting;
    pending := kept;
  }

  /** When nothing runs, every affordable process can be launched. */
  lemma {:induction false} AloneLaunches(allocations: seq<Allocation>, active: seq<nat>, i: nat)
    requires Indices(active, |allocations|) && i < |allocations| && Affordable(allocations[i])
    requires !Launchable(allocations, active, Cpu(allocations, active), Memory(allocations, active), i)
    ensures active != []
  {
  }

  /** A process that is not launched would not fit. */
  lemma {:induction false} NoRoom(allocations: seq<Allocation>, active: seq<nat>, i: nat)
    requires Fits(allocations, active) && i < |allocations|
    requires !Launchable(allocations, active, Cpu(allocations, active), Memory(allocations, active), i)
    ensures !Fits(allocations, active + [i])
  {
    UsageOne(allocations, active, i);
    hide Cpu, Memory;
    if HasExclusive(allocations, active) {
      var k :| 0 <= k < |active| && allocations[active[k]].exclusive;
      assert (active + [i])[k] == active[k];
    }
    assert (active + [i])[|active|] == i;
  }

  /** Collects the processes that have exited. */
  method Collect<R>(allocations: seq<Allocation>, receipts: seq<Option<R>>, running: seq<nat>, exited: set<nat>,
                    finished: map<nat, R>, ghost done: seq<nat>)
    returns (active: seq<nat>, results: map<nat, R>, failed: bool, ghost collected: seq<nat>)
    requires forall i :: 0 <= i < |allocations| ==> Affordable(allocations[i])
    requires |receipts| == |allocations| && Indices(running, |allocations|) && Fits(allocations, running)
    requires Finished(receipts, finished, done)
    ensures failed ==> exists i :: 0 <= i < |receipts| && receipts[i].None?
    ensures !failed ==>
      Indices(active, |allocations|) && Fits(allocations, active) && Finished(receipts, results, collected)
    ensures !failed ==> multiset(active) + multiset(collected) == multiset(running) + multiset(done)
    ensures !failed && AllIn(running, exited) ==> active == []
  {
    var kept: seq<nat> := [];
    results, collected, failed := finished, done, false;
    CollectStart(allocations, receipts, running, finished, done);
    hide Collecting, Affordable;
    for k := 0 to |running|
      invariant Collecting(allocations, receipts, running, done, k, kept, results, collected)
      invariant AllIn(running[..k], exited) ==> kept == []
    {
      var i := running[k];
      if i !in exited {
        CollectKeep(allocations, receipts, running, done, k, kept, results, collected);
        assert running[..k + 1][k] == i;
        kept := kept + [i];
        continue;
      }
      if receipts[i].None? {
        return [], results, true, collected;
      }
      CollectOne(allocations, receipts, running, done, k, kept, results, collected);
      assert AllIn(running[..k + 1], exited) ==> AllIn(running[..k], exited) by {
        assert forall m :: 0 <= m < k ==> running[..k][m] == running[..k + 1][m];
      }
      results, collected := results[i := receipts[i].value], collected + [i];
    }
    CollectEnd(allocations, receipts, running, done, kept, results, collected);
    assert running[..|running|] == running;
    active := kept;
  }

  /** After the first `k` running processes: those kept and those not yet looked at still fit, and everything collected
      has its receipt. */
  ghost predicate Collecting<R>(allocations: seq<Allocation>, receipts: seq<Option<R>>, running: seq<nat>,
                                done: seq<nat>,
                                k: nat, kept: seq<nat>, results: map<nat, R>, collected: seq<nat>)
  {
    && k <= |running| && Indices(kept, |allocations|) && Fits(allocations, kept + running[k..])
    && Finished(receipts, results, collected)
    && multiset(kept) + multiset(collected) == multiset(running[..k]) + multiset(done)
  }

  lemma {:induction false} CollectStart<R>(allocations: seq<Allocation>, receipts: seq<Option<R>>, running: seq<nat>,
                                           results: map<nat, R>, done: seq<nat>)
    requires Fits(allocations, running) && Finished(receipts, results, done)
    ensures Collecting(allocations, receipts, running, done, 0, [], results, done)
  {
    hide Fits, Finished;
    assert [] + running[0..] == running;
  }

  lemma {:induction false} CollectKeep<R>(allocations: seq<Allocation>, receipts: seq<Option<R>>, running: seq<nat>,
                                          done: seq<nat>, k: nat, kept: seq<nat>, results: map<nat, R>,
                                          collected: seq<nat>)
    requires Collecting(allocations, receipts, running, done, k, kept, results, collected)
    requires k < |running| && running[k] < |allocations|
    ensures Collecting(allocations, receipts, running, done, k + 1, kept + [running[k]], results, collected)
  {
    hide Fits, Finished;
    assert kept + running[k..] == kept + [running[k]] + running[k + 1..];
    assert running[..k + 1] == running[..k] + [running[k]];
    Moved(kept, collected, running[..k], done, running[k]);
  }

  lemma {:induction false} CollectOne<R>(allocations: seq<Allocation>, receipts: seq<Option<R>>, running: seq<nat>,
                                         done: seq<nat>, k: nat, kept: seq<nat>, results: map<nat, R>,
                                         collected: seq<nat>)
    requires Collecting(allocations, receipts, running, done, k, kept, results, collected)
    requires k < |running| && running[k] < |allocations| && Affordable(allocations[running[k]])
    requires running[k] < |receipts| && receipts[running[k]].Some?
    ensures Collecting(allocations, receipts, running, done, k + 1, kept,
                       results[running[k] := receipts[running[k]].value],
                       collected + [running[k]])
  {
    hide Fits, Finished, Affordable;
    var i := running[k];
    assert kept + running[k..] == kept + [i] + running[k + 1..];
    assert running[..k + 1] == running[..k] + [i];
    Moved(kept, collected, running[..k], done, i);
    FitsWithout(allocations, kept, i, running[k + 1..]);
    FinishedOne(receipts, results, collected, i);
  }

  lemma {:induction false} CollectEnd<R>(allocations: seq<Allocation>, receipts: seq<Option<R>>, running: seq<nat>,
                                         done: seq<nat>, kept: seq<nat>, results: map<nat, R>, collected: seq<nat>)
    requires Collecting(allocations, receipts, running, done, |running|, kept, results, collected)
    ensures Indices(kept, |allocations|) && Fits(allocations, kept) && Finished(receipts, results, collected)
    ensures multiset(kept) + multiset(collected) == multiset(running) + multiset(done)
  {
    hide Fits, Finished;
    assert kept + running[|running|..] == kept && running[..|running|] == running;
  }

  predicate AllIn(running: seq<nat>, exited: set<nat>) {
    forall k :: 0 <= k < |running| ==> running[k] in exited
  }

  lemma {:induction false} FinishedOne<R>(receipts: seq<Option<R>>, results: map<nat, R>, done: seq<nat>, i: nat)
    requires Finished(receipts, results, done) && i < |receipts| && receipts[i].Some?
    ensures Finished(receipts, results[i := receipts[i].value], done + [i])
  {
    assert forall j :: j in done + [i] <==> j in done || j == i;
  }

  /** The collected results are exactly the receipts of the processes that are done. */
  ghost predicate Finished<R>(receipts: seq<Option<R>>, results: map<nat, R>, done: seq<nat>) {
    && (forall i :: i in results <==> i in done)
    && forall i :: i in results ==> i < |receipts| && receipts[i] == Some(results[i])
  }

  ghost predicate AllFit(allocations: seq<Allocation>, occupancy: seq<seq<nat>>) {
    forall a :: a in occupancy ==> Fits(allocations, a)
  }

  lemma {:induction false} AllFitConcat(allocations: seq<Allocation>, earlier: seq<seq<nat>>, more: seq<seq<nat>>)
    requires AllFit(allocations, earlier) && AllFit(allocations, more)
    ensures AllFit(allocations, earlier + more)
  {
    hide Fits;
  }

  /** Every process exits within the round that polls it. */
  ghost predicate Prompt(schedule: seq<set<nat>>, n: nat) {
    forall t :: 0 <= t < |schedule| ==> AllExited(schedule[t], n)
  }

  ghost predicate AllExited(exited: set<nat>, n: nat) {
    forall i: nat :: i < n ==> i in exited
  }

  /** No call was launched twice. */
  ghost predicate NoneTwice(n: nat, launches: seq<nat>) {
    multiset(launches) <= multiset(Range(n))
  }

  /** Every call is pending, running or done, and has been launched once unless it is pending. */
  ghost predicate InFlight(n: nat, pending: seq<nat>, active: seq<nat>, done: seq<nat>, launches: seq<nat>) {
    && multiset(pending) + multiset(active) + multiset(done) == multiset(Range(n))
    && multiset(pending) + multiset(launches) == multiset(Range(n))
  }

  lemma {:induction false} AllDone(n: nat, done: seq<nat>, launches: seq<nat>, i: nat)
    requires InFlight(n, [], [], done, launches) && i < n
    ensures i in done && multiset(launches) == multiset(Range(n))
  {
    assert multiset(done) == multiset(Range(n));
    assert multiset(launches) == multiset(Range(n));
    assert Range(n)[i] == i;
    assert i in multiset(Range(n));
  }

  /** Every call asks for some of both resources and for no more than the whole budget. */
  predicate EachWithinBudget(allocations: seq<Allocation>) {
    forall a :: a in allocations ==> 0 < a.cpu <= BATCH_LIMITS.cpu && 0 < a.memory <= BATCH_LIMITS.memory
  }

  lemma {:induction false} EachAffordable(allocations: seq<Allocation>)
    ensures EachWithinBudget(allocations) <==> forall i :: 0 <= i < |allocations| ==> Affordable(allocations[i])
  {
    if EachWithinBudget(allocations) {
      assert forall i :: 0 <= i < |allocations| ==> allocations[i] in allocations;
    }
  }

  lemma {:induction false} Started(n: nat)
    ensures InFlight(n, Range(n), [], [], [])
  {
  }

  lemma {:induction false} LaunchedAll(n: nat, done: seq<nat>, launches: seq<nat>)
    requires InFlight(n, [], [], done, launches)
    ensures multiset(launches) == multiset(Range(n))
  {
  }

  lemma {:induction false} FinishedAt<R>(receipts: seq<Option<R>>, results: map<nat, R>, done: seq<nat>, i: nat)
    requires Finished(receipts, results, done) && i in done
    ensures i in results && i < |receipts| && receipts[i] == Some(results[i])
  {
  }

  /** When nothing is pending or active, every call has its receipt. */
  lemma {:induction false} EveryReceipt<R>(receipts: seq<Option<R>>, results: map<nat, R>, done: seq<nat>,
                                           launches: seq<nat>)
    requires Finished(receipts, results, done) && InFlight(|receipts|, [], [], done, launches)
    ensures forall i :: 0 <= i < |receipts| ==> i in results && receipts[i] == Some(results[i])
    ensures multiset(launches) == multiset(Range(|receipts|))
  {
    forall i | 0 <= i < |receipts|
      ensures i in results && receipts[i] == Some(results[i])
    {
      AllDone(|receipts|, done, launches, i);
      FinishedAt(receipts, results, done, i);
    }
    LaunchedAll(|receipts|, done, launches);
  }

  method RunMany<R>(allocations: seq<Allocation>, receipts: seq<Option<R>>, schedule: seq<set<nat>>)
    returns (r: Result<seq<R>, RunError>, launches: seq<nat>, ghost occupancy: seq<seq<nat>>)
    requires |receipts| == |allocations|
    ensures r != Err(OverBudget) <==> EachWithinBudget(allocations)
    ensures r == Err(ProcessFailed) ==> exists i :: 0 <= i < |receipts| && receipts[i].None?
    ensures r.Ok? ==> |r.value| == |receipts| && forall i :: 0 <= i < |receipts| ==> receipts[i] == Some(r.value[i])
    ensures r.Ok? ==> multiset(launches) == multiset(Range(|allocations|))
    ensures NoneTwice(|allocations|, launches) && AllFit(allocations, occupancy)
    ensures |schedule| >= |allocations| && Prompt(schedule, |allocations|) ==> r != Err(StillRunning)
  {
    launches, occupancy := [], [];
    EachAffordable(allocations);
    hide EachWithinBudget;
    if exists i :: 0 <= i < |allocations| && !Affordable(allocations[i]) {
      return Err(OverBudget), launches, occupancy;
    }
    var n := |allocations|;
    var pending: seq<nat>, active: seq<nat>, results: map<nat, R> := Range(n), [], map[];
    ghost var done: seq<nat> := [];
    assert launches + pending == pending;
    assert NoneTwice(n, launches);
    hide Affordable, Finished, Fits, AllFit, InFlight, NoneTwice, AllExited;
    assert InFlight(n, pending, active, done, launches) by {
      Started(n);
    }
    for t := 0 to |schedule|
      invariant Indices(pending, n) && Indices(active, n) && Fits(allocations, active)
      invariant Finished(receipts, results, done)
      invariant InFlight(n, pending, active, done, launches) && NoneTwice(n, launches)
      invariant AllFit(allocations, occupancy)
      invariant Prompt(schedule, n) ==> active == [] && (pending == [] || |pending| + t <= n)
    {
      if pending == [] && active == [] {
        break;
      }
      var failed: bool;
      ghost var more, collected;
      pending, active, launches, results, failed, more, collected :=
        Round(allocations, receipts, pending, active, launches, schedule[t], results, done);
      AllFitConcat(allocations, occupancy, more);
      occupancy := occupancy + more;
      if failed {
        return Err(ProcessFailed), launches, occupancy;
      }
      done := collected;
    }
    if pending != [] || active != [] {
      return Err(StillRunning), launches, occupancy;
    }
    EveryReceipt(receipts, results, done, launches);
    r := Ok(seq(n, i requires 0 <= i < n => results[i]));
  }

  /** One round of the loop: launch what fits, then collect what has exited. */
  method Round<R>(allocations: seq<Allocation>, receipts: seq<Option<R>>, waiting: seq<nat>, running: seq<nat>,
                  launched: seq<nat>, exited: set<nat>, finished: map<nat, R>, ghost done: seq<nat>)
    returns (pending: seq<nat>, active: seq<nat>, launches: seq<nat>, results: map<nat, R>, failed: bool,
             ghost occupancy: seq<seq<nat>>, ghost collected: seq<nat>)
    requires forall i :: 0 <= i < |allocations| ==> Affordable(allocations[i])
    requires |receipts| == |allocations| && Indices(waiting, |allocations|) && Indices(running, |allocations|)
    requires Fits(allocations, running) && Finished(receipts, finished, done)
    requires InFlight(|allocations|, waiting, running, done, launched)
    ensures NoneTwice(|allocations|, launches) && AllFit(allocations, occupancy)
    ensures failed ==> exists i :: 0 <= i < |receipts| && receipts[i].None?
    ensures !failed ==>
      && Indices(pending, |allocations|) && Indices(active, |allocations|)
      && Fits(allocations, active) && Finished(receipts, results, collected)
      && InFlight(|allocations|, pending, active, collected, launches)
    ensures !failed && AllExited(exited, |allocations|) ==>
      active == [] && (waiting + running != [] ==> |pending| < |waiting| + |running|)
  {
    hide Fits, Finished, Affordable;
    pending, active, launches, occupancy := Launch(allocations, waiting, running, launched);
    assert AllFit(allocations, occupancy);
    ghost var launching := active;
    assert |multiset(pending) + multiset(launching)| == |multiset(waiting) + multiset(running)|;
    active, results, failed, collected := Collect(allocations, receipts, active, exited, finished, done);
    if !failed {
      Regrouped(multiset(Range(|allocations|)), multiset(waiting), multiset(running), multiset(done),
                multiset(pending), multiset(launching), multiset(active), multiset(collected));
    }
    assert multiset(launches) <= multiset(pending) + multiset(launches);
  }
}
