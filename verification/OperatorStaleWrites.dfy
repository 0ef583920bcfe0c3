/** When a state that was read before a commit and written after it lets a second successor commit.

    The platform reads the state of a cycle in one transaction and writes it in another.  Recoveries are safe from that,
    see OperatorRuns; an import that takes up an existing event can lose its mark.
 */
module OperatorStaleWrites {
  import opened Values
  import opened OperatorSteps
  import opened OperatorTransactions
  import opened OperatorRuns
  import opened OperatorProgress
  import opened OperatorDeadlocks

  // ----- runs that keep the import marks -----

  ghost predicate ReachesKeeping(w: World, v: World) {
    exists events :: KeepsImports(w, events) && Run(w, events) == v
  }

  lemma {:induction false} KeepingSelf(w: World)
    ensures ReachesKeeping(w, w)
  {
    assert KeepsImports(w, []) && Run(w, []) == w;
  }

  lemma {:induction false} KeepingStep(w: World, v: World, e: Event)
    requires ReachesKeeping(w, v) && KeepsImport(v, e)
    ensures ReachesKeeping(w, Step(v, e))
  {
    hide Step, KeepsImport;
    var events :| KeepsImports(w, events) && Run(w, events) == v;
    var longer := events + [e];
    RunAppend(w, events, e);
    forall k | 0 <= k < |longer|
      ensures KeepsImport(Run(w, longer[..k]), longer[k])
    {
      assert longer[..k] == events[..k];
      assert k == |events| ==> events[..k] == events;
    }
    assert KeepsImports(w, longer);
  }

  lemma {:induction false} KeepingRun(w: World, v: World, events: seq<Event>)
    requires ReachesKeeping(w, v) && KeepsImports(v, events)
    ensures ReachesKeeping(w, Run(v, events))
    decreases |events|
  {
    hide Step, ReachesKeeping, KeepsImport;
    if events != [] {
      var before := events[..|events| - 1];
      KeepsImportsBefore(v, events);
      KeepingRun(w, v, before);
      KeepingStep(w, Run(v, before), events[|events| - 1]);
    }
  }

  lemma {:induction false} KeepingTrans(w: World, v: World, u: World)
    requires ReachesKeeping(w, v) && ReachesKeeping(v, u)
    ensures ReachesKeeping(w, u)
  {
    var events :| KeepsImports(v, events) && Run(v, events) == u;
    KeepingRun(w, v, events);
  }

  /** A revalidation of the source that is not recorded yet can be recorded without any import mark being
      overwritten. */
  ghost predicate CanImport(w: World, source: nat) {
    exists v, q :: ReachesKeeping(w, v) && NewlyImported(w, v, source, q)
  }

  predicate NewlyImported(w: World, v: World, source: nat, q: Plan) {
    q.kind == Revalidation && q.cycle == source && q in v.db.audits && q !in w.db.audits
  }

  // ----- a mark refuses -----

  lemma {:induction false} MarkRefuses(w: World, source: nat, c: nat)
    requires Invariant(w) && NoLocks(w) && c in w.db.cycles && Imports(w.db.cycles[c], source)
    ensures !CanImport(w, source)
  {
    hide Invariant, Step;
    forall v, q | ReachesKeeping(w, v)
      ensures !NewlyImported(w, v, source, q)
    {
      var events :| KeepsImports(w, events) && Run(w, events) == v;
      MarkStays(w, events, source, c);
    }
  }

  lemma {:induction false} MarkStays(w: World, events: seq<Event>, source: nat, c: nat)
    requires Invariant(w) && NoLocks(w) && KeepsImports(w, events)
    requires c in w.db.cycles && Imports(w.db.cycles[c], source)
    ensures Guarded(Run(w, events), source, c)
    ensures NoNewImport(w.db, Run(w, events).db, source)
  {
    hide Invariant, Step;
    if events != [] {
      var before, e := events[..|events| - 1], events[|events| - 1];
      KeepsImportsBefore(w, events);
      MarkStays(w, before, source, c);
      RunKeeps(w, before);
      GuardStep(Run(w, before), e, source, c);
    }
  }

  // ----- without a mark a second successor can commit -----

  /** What is the same all along: nobody holds a lock, and the source can be revalidated. */
  ghost predicate Ready(w: World, source: nat) {
    && Invariant(w) && NoLocks(w) && source in w.db.cycles && Evaluated(w.db.cycles[source])
    && NoImporter(w.db, source)
  }

  /** The marks that a cycle bears are among those it bore. */
  lemma {:induction false} CurrentMarks(db: Database, c: nat)
    requires Recorded(db) && c in db.cycles
    ensures EarlierRecovery(db, c, db.cycles[c].recoveredBy) && EarlierImport(db, c, db.cycles[c].importedBy)
  {
    assert MarksRecorded(db, c, db.cycles[c]);
    if db.cycles[c].importedBy.None? {
      forall q | q in db.audits && ImportedInto(db, q, c)
        ensures !db.audits[q].added
      {
        assert Stands(db, q);
      }
    }
    hide Stands;
  }

  /** The activity comes to its end. */
  function Concluded(c: Cycle): Cycle {
    c.(status := Succeeded, finished := true)
  }

  lemma {:induction false} ActivityEnds(w: World, source: nat, d: nat) returns (v: World)
    requires Ready(w, source) && d in w.db.cycles && d != source
    ensures ReachesKeeping(w, v) && Ready(v, source) && v.db.audits == w.db.audits && v.sessions == w.sessions
    ensures v.db.cycles == w.db.cycles[d := Concluded(w.db.cycles[d])]
  {
    var e := Progress(d, Concluded(w.db.cycles[d]));
    CurrentMarks(w.db, d) by {
      hide Exclusive, AllStillVerified, CreatorsReady, DistinctSuccessors;
    }
    StepKeeps(w, e);
    KeepingSelf(w);
    KeepingStep(w, w, e);
    v := Step(w, e);
    assert RowsFree(w, d);
    assert v == PutCycle(w, d, Concluded(w.db.cycles[d])) by {
      hide Invariant, RowsFree, EarlierImport, EarlierRecovery;
    }
    hide Invariant, Step, ReachesKeeping, RowsFree;
  }

  ghost function Owners(db: Database, horizon: nat): set<nat> {
    set d | d in db.cycles && Owns(db.cycles[d], horizon)
  }

  /** Every activity that owns the horizon comes to its end. */
  lemma {:induction false} HorizonIsFreed(w: World, source: nat) returns (v: World)
    requires Ready(w, source)
    ensures ReachesKeeping(w, v) && Ready(v, source) && v.db.audits == w.db.audits
    ensures v.db.cycles.Keys == w.db.cycles.Keys && v.db.cycles[source] == w.db.cycles[source]
    ensures !Owned(v.db, w.db.cycles[source].horizon)
    decreases Owners(w.db, w.db.cycles[source].horizon)
  {
    var horizon := w.db.cycles[source].horizon;
    if d: nat :| d in w.db.cycles && Owns(w.db.cycles[d], horizon) {
      var next := ActivityEnds(w, source, d);
      hide Ready, ReachesKeeping;
      assert d in Owners(w.db, horizon) && Owners(next.db, horizon) <= Owners(w.db, horizon) - {d};
      v := HorizonIsFreed(next, source) by {
        assert Ready(next, source);
      }
      KeepingTrans(w, next, v);
    } else {
      KeepingSelf(w);
      v := w;
      hide Ready;
    }
  }

  // ----- fresh numbers -----

  lemma {:induction false} Fresh(s: set<nat>) returns (n: nat)
    ensures forall x :: x in s ==> x < n
  {
    if x: nat :| x in s {
      var rest := Fresh(s - {x});
      n := if rest <= x then x + 1 else rest;
      assert forall y :: y in s ==> y == x || y in s - {x};
    } else {
      n := 0;
    }
  }

  ghost function Keys(db: Database): set<nat> {
    set c | c in db.cycles && db.cycles[c].event.Some? :: db.cycles[c].event.value.key
  }

  /** A plan for the source under an event key that nobody used. */
  lemma {:induction false} FreshPlan(db: Database, source: nat) returns (q: Plan)
    requires Recorded(db) && source in db.cycles
    ensures q.kind == Revalidation && q.cycle == source && q.horizon == db.cycles[source].horizon
    ensures q.evidence == db.cycles[source].evidence && q.release == 0 && !EventBound(db, q.key) && q !in db.audits
  {
    var key := Fresh(Keys(db));
    q := Plan(Revalidation, source, db.cycles[source].horizon, db.cycles[source].evidence, 0, key, 0);
    forall c | c in db.cycles
      ensures !HasKey(db.cycles[c], key)
    {
      assert db.cycles[c].event.Some? ==> db.cycles[c].event.value.key in Keys(db);
    }
    assert q in db.audits ==> Stands(db, q);
  }

  lemma {:induction false} FreshIsUncontested(w: World, source: nat, q: Plan, target: nat)
    requires NoLocks(w) && source in w.db.cycles && Evaluated(w.db.cycles[source]) && NoImporter(w.db, source)
    requires !Owned(w.db, w.db.cycles[source].horizon) && target !in w.db.cycles
    requires q.kind == Revalidation && q.cycle == source && q.horizon == w.db.cycles[source].horizon && q.release == 0
    requires q.evidence == w.db.cycles[source].evidence && !EventBound(w.db, q.key) && q !in w.db.audits
    ensures Uncontested(Step(w, Spawn(q, Execute, 0)), |w.sessions|, target)
  {
    hide Owned, EventBound;
  }

  /** Once the horizon is free, such a plan goes through. */
  lemma {:induction false} FreshPlanCommits(w: World, source: nat) returns (v: World, q: Plan)
    requires Ready(w, source) && !Owned(w.db, w.db.cycles[source].horizon)
    ensures ReachesKeeping(w, v) && NewlyImported(w, v, source, q)
  {
    hide Exclusive, AllStillVerified, CreatorsReady, DistinctSuccessors, Uncontested, ReachesKeeping, NoLocks;
    hide Evaluated, Run, Step, Recorded, KeysUnique, EventBound, Owned, NoImporter;
    q := FreshPlan(w.db, source);
    var target := Fresh(w.db.cycles.Keys);
    FreshIsUncontested(w, source, q, target);
    v := SpawnedPlanCommits(w, q, target);
  }

  lemma {:induction false} SpawnedPlanCommits(w: World, q: Plan, target: nat) returns (v: World)
    requires Uncontested(Step(w, Spawn(q, Execute, 0)), |w.sessions|, target)
    ensures ReachesKeeping(w, v) && q in v.db.audits
  {
    var spawn, s := Spawn(q, Execute, 0), |w.sessions|;
    var spawned := Step(w, spawn);
    assert spawned.sessions[s].plan == q && spawned.sessions[s].mode == Execute;
    hide Uncontested, Step, Run;
    var events := Statements(s, 0, target, 0, {});
    v := Run(spawned, events);
    UncontestedPlanCommits(spawned, s, 0, target, 0, {});
    assert q in v.db.audits;
    assert KeepsImports(spawned, events) && KeepsImport(w, spawn);
    hide KeepsImports, KeepsImport, ReachesKeeping;
    KeepingSelf(w);
    KeepingStep(w, w, spawn);
    KeepingRun(w, spawned, events);
  }

  /** A source can have a further successor exactly when no cycle names it in its state. */
  lemma {:induction false} FurtherSuccessorExactly(w: World, source: nat)
    requires Invariant(w) && NoLocks(w) && source in w.db.cycles && Evaluated(w.db.cycles[source])
    ensures CanImport(w, source) <==> NoImporter(w.db, source)
  {
    if NoImporter(w.db, source) {
      var freed := HorizonIsFreed(w, source);
      var v, q := FreshPlanCommits(freed, source);
      hide ReachesKeeping, Ready, Invariant;
      KeepingTrans(w, freed, v);
      assert NewlyImported(w, v, source, q);
    } else {
      var c: nat :| c in w.db.cycles && Imports(w.db.cycles[c], source);
      MarkRefuses(w, source, c);
    }
  }

  // ----- a write decides -----

  /** A row that differs from what was read only in what is not part of the state, and goes on with the activity. */
  function Patched(now: Cycle, read: Cycle): Cycle {
    read.(horizon := now.horizon, event := now.event, joint := now.joint, registered := now.registered,
          status := Active, finished := false)
  }

  /** No cycle but `c` names the source in its state. */
  ghost predicate OnlyImporter(db: Database, c: nat, source: nat) {
    forall d :: d in db.cycles && d != c ==> !Imports(db.cycles[d], source)
  }

  /** As long as the import marks were kept, the successor of a source is its only one. */
  lemma {:induction false} GuardedIsOnly(w: World, c: nat, source: nat)
    requires Invariant(w) && AllGuarded(w, true) && c in w.db.cycles && Imports(w.db.cycles[c], source)
    ensures OnlyImporter(w.db, c, source)
  {
    var p := w.db.cycles[c].importedBy.value;
    assert MarksRecorded(w.db, c, w.db.cycles[c]);
    forall d | d in w.db.cycles && Imports(w.db.cycles[d], source)
      ensures d == c
    {
      assert MarksRecorded(w.db, d, w.db.cycles[d]);
      assert Counted(w.db, w.db.cycles[d].importedBy.value, true) && Counted(w.db, p, true);
    }
  }

  /** Only a successor that took up an existing event can come to name the source no longer. */
  lemma {:induction false} AddedKeepsMark(db: Database, c: nat, row: Cycle, source: nat)
    requires Recorded(db) && c in db.cycles && Imports(db.cycles[c], source) && Overwrites(db, c, row)
    ensures db.cycles[c].importedBy.value in db.audits
    ensures !Imports(row, source) ==> !db.audits[db.cycles[c].importedBy.value].added
    ensures source != c
  {
    assert MarksRecorded(db, c, db.cycles[c]);
    assert Stands(db, db.cycles[c].importedBy.value);
  }

  lemma {:induction false} OverwriteApplies(w: World, c: nat, row: Cycle)
    requires NoLocks(w) && c in w.db.cycles && Overwrites(w.db, c, row)
    ensures Step(w, Progress(c, row)) == PutCycle(w, c, row)
  {
    hide Overwrites;
    assert RowsFree(w, c);
  }

  /** When the platform writes the state of a successor, a further one can commit exactly if the written state no longer
      names the source and no other cycle does; and that can only be a successor that took up an existing event. */
  lemma {:induction false} StaleWriteDecides(w: World, c: nat, row: Cycle, source: nat)
    requires Invariant(w) && NoLocks(w)
    requires c in w.db.cycles && Imports(w.db.cycles[c], source) && Overwrites(w.db, c, row)
    requires source in w.db.cycles && Evaluated(w.db.cycles[source])
    ensures CanImport(Step(w, Progress(c, row)), source) <==> !Imports(row, source) && OnlyImporter(w.db, c, source)
    ensures AllGuarded(w, true) ==> OnlyImporter(w.db, c, source)
    ensures w.db.cycles[c].importedBy.value in w.db.audits
    ensures !Imports(row, source) ==> !w.db.audits[w.db.cycles[c].importedBy.value].added
  {
    hide Exclusive, AllStillVerified, CreatorsReady, DistinctSuccessors, KeysUnique, Step, Overwrites, AllGuarded;
    AddedKeepsMark(w.db, c, row, source);
    hide Invariant, CanImport;
    OverwriteApplies(w, c, row);
    StepKeeps(w, Progress(c, row));
    var after := Step(w, Progress(c, row));
    if AllGuarded(w, true) {
      GuardedIsOnly(w, c, source);
    }
    assert NoImporter(after.db, source) <==> !Imports(row, source) && OnlyImporter(w.db, c, source);
    FurtherSuccessorExactly(after, source);
  }

  /** What the commit of a revalidation that takes up an existing event leaves. */
  lemma {:induction false} ReuseCommits(w: World, s: nat, details: nat, target: nat, evidence: nat, mentions: set<nat>)
    requires NoLocks(w) && s < |w.sessions| && Uncontested(w, s, target)
    requires w.sessions[s].mode == Execute && w.sessions[s].plan.kind == Revalidation && target in w.db.cycles
    ensures
      var p := w.sessions[s].plan;
      var after := Run(w, Statements(s, details, target, evidence, mentions));
      && NoLocks(after) && target != p.cycle && p.cycle in w.db.cycles && Evaluated(w.db.cycles[p.cycle])
      && !w.db.cycles[target].joint && NoImporter(w.db, p.cycle)
      && after.db.audits == w.db.audits[p := Receipt(p, target, false, details)]
      && after.db.cycles == w.db.cycles[target := ReusedRow(w.db.cycles[target], p, evidence, mentions)]
  {
    hide Run, Owned, KeyFree, HorizonFree, RowsFree;
    UncontestedPlanCommits(w, s, details, target, evidence, mentions);
    assert PlanHolds(w.db, w.sessions[s].plan, w.sessions[s].release);
  }

  lemma {:induction false} StalePatchSpares(db: Database, after: Database, p: Plan, receipt: Receipt, evidence: nat,
                                            mentions: set<nat>)
    requires Recorded(db) && receipt.cycle in db.cycles && !db.cycles[receipt.cycle].joint && !receipt.added
    requires after == Database(db.cycles[receipt.cycle := ReusedRow(db.cycles[receipt.cycle], p, evidence, mentions)],
                               db.audits[p := receipt])
    ensures
      var row := Patched(after.cycles[receipt.cycle], db.cycles[receipt.cycle]);
      Overwrites(after, receipt.cycle, row) && row.importedBy.None?
  {
    NothingRecorded(db, receipt.cycle);
  }

  /** The patch that loses an import: it read an existing event before a revalidation took it up, and writes after that.
      The event no longer names the source, which can then have a second successor. */
  lemma {:induction false} StalePatchLosesImport(w: World, s: nat, details: nat, target: nat, evidence: nat,
                                                 mentions: set<nat>)
    requires Invariant(w) && NoLocks(w) && s < |w.sessions| && Uncontested(w, s, target)
    requires w.sessions[s].mode == Execute && w.sessions[s].plan.kind == Revalidation && target in w.db.cycles
    ensures
      var p := w.sessions[s].plan;
      var after := Run(w, Statements(s, details, target, evidence, mentions));
      && p in after.db.audits && target in after.db.cycles && Imports(after.db.cycles[target], p.cycle)
      && var row := Patched(after.db.cycles[target], w.db.cycles[target]);
         Overwrites(after.db, target, row) && CanImport(Step(after, Progress(target, row)), p.cycle)
  {
    var p, events := w.sessions[s].plan, Statements(s, details, target, evidence, mentions);
    var after := Run(w, events);
    ReuseCommits(w, s, details, target, evidence, mentions);
    RunKeeps(w, events);
    hide Run, Uncontested;
    StalePatchSpares(w.db, after.db, p, Receipt(p, target, false, details), evidence, mentions) by {
      hide Exclusive, AllStillVerified, CreatorsReady, DistinctSuccessors, KeysUnique, Uncontested, ReusedRow;
    }
    hide Invariant, Overwrites;
    StaleWriteDecides(after, target, Patched(after.db.cycles[target], w.db.cycles[target]), p.cycle);
  }

  predicate ImportsRecorded(w: World, p: Plan, q: Plan, source: nat) {
    p != q && {p, q} <= w.db.audits.Keys && p.kind == q.kind == Revalidation && p.cycle == q.cycle == source
  }

  /** Two revalidations of the source can be recorded. */
  ghost predicate TwoImports(w: World, source: nat) {
    exists events, p, q :: ImportsRecorded(Run(w, events), p, q, source)
  }

  lemma {:induction false} LaterImportIsSecond(w: World, events: seq<Event>, p: Plan, source: nat)
    requires Invariant(w) && p in Run(w, events).db.audits && p.kind == Revalidation && p.cycle == source
    requires CanImport(Run(w, events), source)
    ensures TwoImports(w, source)
  {
    hide Invariant, Run, KeepsImports;
    var lost := Run(w, events);
    RunKeeps(w, events);
    var v, q :| ReachesKeeping(lost, v) && NewlyImported(lost, v, source, q);
    var rest :| KeepsImports(lost, rest) && Run(lost, rest) == v;
    ReceiptsPersist(lost, rest, p);
    RunConcat(w, events, rest);
    assert ImportsRecorded(Run(w, events + rest), p, q, source);
  }

  lemma {:induction false} TwoSuccessorsCommit(w: World, s: nat, target: nat)
    requires Invariant(w) && NoLocks(w) && s < |w.sessions| && Uncontested(w, s, target)
    requires w.sessions[s].mode == Execute && w.sessions[s].plan.kind == Revalidation && target in w.db.cycles
    ensures TwoImports(w, w.sessions[s].plan.cycle)
  {
    hide Invariant, Uncontested, Overwrites, Step, Run, NoLocks, Patched, CanImport;
    var p, events := w.sessions[s].plan, Statements(s, 0, target, 0, {});
    var after := Run(w, events);
    StalePatchLosesImport(w, s, 0, target, 0, {});
    var patch := Progress(target, Patched(after.db.cycles[target], w.db.cycles[target]));
    RunKeeps(w, events);
    StepKeepsReceipts(after, patch, p);
    RunAppend(w, events, patch);
    LaterImportIsSecond(w, events + [patch], p, p.cycle);
  }

  lemma {:induction false} TwoImportsAfterStep(w: World, e: Event, source: nat)
    requires TwoImports(Step(w, e), source)
    ensures TwoImports(w, source)
  {
    var v := Step(w, e);
    assert Run(w, []) == w;
    hide Step, Run, ImportsRecorded;
    var events, p, q :| ImportsRecorded(Run(v, events), p, q, source);
    RunAppend(w, [], e);
    RunConcat(w, [] + [e], events);
    assert ImportsRecorded(Run(w, [] + [e] + events), p, q, source);
  }

  /** A finished research event, and an event of the same budget that was just created. */
  const DATABASE := Database(
    map[0 := Cycle(0, Some(Request(0, 0, 0)), Succeeded, true, false, false, true, true, 0, None, None, {}),
        1 := NewRow(0, Some(Request(1, 0, 0)), 0)],
    map[])

  /** The first revalidation is asked for. */
  lemma {:induction false} FirstIsUncontested()
    ensures
      var spawned := Step(World(DATABASE, [], []), Spawn(Plan(Revalidation, 0, 0, 0, 0, 1, 0), Execute, 0));
      NoLocks(spawned) && Uncontested(spawned, 0, 1)
  {
    assert HasKey(DATABASE.cycles[1], 1);
  }

  /** One platform patch between two transactions is enough: from a database without marks, both revalidations of cycle
      0 are recorded. */
  lemma {:induction false} PatchedSourceIsImportedTwice()
    ensures Invariant(World(DATABASE, [], [])) && AllGuarded(World(DATABASE, [], []), true)
    ensures TwoImports(World(DATABASE, [], []), 0)
  {
    var w, spawn := World(DATABASE, [], []), Spawn(Plan(Revalidation, 0, 0, 0, 0, 1, 0), Execute, 0);
    StartsWell(DATABASE);
    StepKeeps(w, spawn);
    var spawned := Step(w, spawn);
    FirstIsUncontested();
    hide Invariant, Uncontested, NoLocks;
    TwoSuccessorsCommit(spawned, 0, 1);
    hide Step;
    TwoImportsAfterStep(w, spawn, 0);
  }
}
