/** What operators can rely on, whatever the other operators, the creators of events and the platform do. */
module OperatorRuns {
  import opened Values
  import opened OperatorSteps
  import opened OperatorTransactions

  // ----- steps that write -----

  predicate IsCommit(w: World, e: Event) {
    e.Finish? && e.s < |w.sessions| && w.sessions[e.s].phase.Written? && w.sessions[e.s].mode == Execute
  }

  predicate IsPlatform(e: Event) {
    e.Create? || e.Progress? || e.Schedule?
  }

  lemma {:induction false} OtherStepsReadOnly(w: World, e: Event)
    requires !IsCommit(w, e) && !IsPlatform(e)
    ensures Step(w, e).db == w.db
  {
    hide HorizonFree, RowsFree, KeyFree, LookForReceiptPhase, WritePhase, CanWrite, PlanHolds, HorizonOf, Commit;
    hide EventBound;
  }

  // ----- sources that are guarded by a mark -----

  /** The state of `c` names the source, and nobody has verified a revalidation of the source meanwhile. */
  ghost predicate Guarded(w: World, source: nat, c: nat) {
    && c in w.db.cycles && Imports(w.db.cycles[c], source)
    && forall i :: 0 <= i < |w.sessions| && Sure(w.sessions[i]) && w.sessions[i].plan.kind == Revalidation ==>
      w.sessions[i].plan.cycle != source
  }

  /** The platform does not take the mark away. */
  predicate SparesMark(w: World, e: Event, source: nat, c: nat) {
    e.Progress? && e.cycle == c && c in w.db.cycles ==> Imports(e.row, source)
  }

  /** No further revalidation of the source is recorded. */
  ghost predicate NoNewImport(before: Database, after: Database, source: nat) {
    forall q :: q in after.audits && q.kind == Revalidation && q.cycle == source ==> q in before.audits
  }

  lemma {:induction false} CommitKeepsGuard(w: World, s: nat, source: nat, c: nat)
    requires Invariant(w) && Guarded(w, source, c) && s < |w.sessions| && w.sessions[s].phase.Written?
    ensures c in Commit(w.db, w.sessions[s]).cycles && Imports(Commit(w.db, w.sessions[s]).cycles[c], source)
    ensures w.sessions[s].plan.kind == Revalidation ==> w.sessions[s].plan.cycle != source
  {
    var a := w.sessions[s];
    assert StillVerified(w.db, a);
    NothingRecorded(w.db, a.phase.successor);
    hide Exclusive, CreatorsReady, DistinctSuccessors, Sound, EventBound;
  }

  /** A session that is past its verification was so before, or has verified its plan just now. */
  lemma {:induction false} SureSince(w: World, e: Event, i: nat)
    requires Invariant(w) && i < |Step(w, e).sessions| && Sure(Step(w, e).sessions[i])
    ensures i < |w.sessions| && Step(w, e).sessions[i].plan == w.sessions[i].plan
    ensures Sure(w.sessions[i]) || PlanHolds(w.db, w.sessions[i].plan, w.sessions[i].release)
  {
    hide Invariant, HorizonFree, RowsFree, KeyFree, HorizonOf, PlanHolds, Evaluated, WritePhase, CanTake;
    hide EventBound, Owned, ManualOn, Overwrites, Reserved, Commit, NewRow;
  }

  /** Apart from commits, only the platform writes, and it spares the mark. */
  lemma {:induction false} MarkSurvives(w: World, e: Event, source: nat, c: nat)
    requires c in w.db.cycles && Imports(w.db.cycles[c], source) && SparesMark(w, e, source, c) && !IsCommit(w, e)
    ensures c in Step(w, e).db.cycles && Imports(Step(w, e).db.cycles[c], source)
    ensures Step(w, e).db.audits == w.db.audits
  {
    if IsPlatform(e) {
      hide HorizonFree, RowsFree, KeyFree, EventBound, Owned, ManualOn, Overwrites, Reserved;
    } else {
      OtherStepsReadOnly(w, e);
      hide Step;
    }
  }

  /** While the mark is there, no revalidation of the source is verified or recorded. */
  lemma {:induction false} GuardStep(w: World, e: Event, source: nat, c: nat)
    requires Invariant(w) && Guarded(w, source, c) && SparesMark(w, e, source, c)
    ensures Guarded(Step(w, e), source, c)
    ensures NoNewImport(w.db, Step(w, e).db, source)
  {
    if IsCommit(w, e) {
      CommitKeepsGuard(w, e.s, source, c);
      hide Invariant, Commit;
      assert Commit(w.db, w.sessions[e.s]).audits == w.db.audits[w.sessions[e.s].plan := w.sessions[e.s].phase.receipt];
    } else {
      MarkSurvives(w, e, source, c);
      hide Invariant, Step, RowMatches;
      forall i | 0 <= i < |Step(w, e).sessions| && Sure(Step(w, e).sessions[i])
        ensures Step(w, e).sessions[i].plan.kind == Revalidation ==> Step(w, e).sessions[i].plan.cycle != source
      {
        SureSince(w, e, i);
      }
    }
  }

  /** The revalidations that are looked at: all of them, or those that added their successor. */
  predicate Counted(db: Database, p: Plan, all: bool) {
    p in db.audits && p.kind == Revalidation && (all || db.audits[p].added)
  }

  /** Each of them guards its source, and no two share one. */
  ghost predicate AllGuarded(w: World, all: bool) {
    && (forall p :: Counted(w.db, p, all) ==> Guarded(w, p.cycle, w.db.audits[p].cycle))
    && (forall p, q :: Counted(w.db, p, all) && Counted(w.db, q, all) && p.cycle == q.cycle ==> p == q)
  }

  /** The platform keeps the import mark of the cycle it writes. */
  predicate KeepsImport(w: World, e: Event) {
    e.Progress? && e.cycle in w.db.cycles ==> e.row.importedBy == w.db.cycles[e.cycle].importedBy
  }

  ghost predicate KeepsImports(w: World, events: seq<Event>) {
    forall k :: 0 <= k < |events| ==> KeepsImport(Run(w, events[..k]), events[k])
  }

  /** The same for all but the last of the events, and for the last one. */
  lemma {:induction false} KeepsImportsBefore(w: World, events: seq<Event>)
    requires events != [] && KeepsImports(w, events)
    ensures KeepsImports(w, events[..|events| - 1])
    ensures KeepsImport(Run(w, events[..|events| - 1]), events[|events| - 1])
  {
    hide KeepsImport, Step;
    var before := events[..|events| - 1];
    forall k | 0 <= k < |before|
      ensures KeepsImport(Run(w, before[..k]), before[k])
    {
      assert before[..k] == events[..k] && KeepsImport(Run(w, events[..k]), events[k]);
    }
  }

  /** A successor that was added has never been without its mark, so no write can take it away. */
  lemma {:induction false} MarkIsSpared(w: World, e: Event, p: Plan, all: bool)
    requires Invariant(w) && Counted(w.db, p, all) && Guarded(w, p.cycle, w.db.audits[p].cycle)
    requires all ==> KeepsImport(w, e)
    requires e.Progress? && e.cycle in w.db.cycles ==> Overwrites(w.db, e.cycle, e.row)
    ensures SparesMark(w, e, p.cycle, w.db.audits[p].cycle)
  {
    hide Exclusive, AllStillVerified, CreatorsReady, DistinctSuccessors, KeysUnique;
    if !all && e.Progress? && e.cycle == w.db.audits[p].cycle {
      assert Stands(w.db, p);
    }
  }

  lemma {:induction false} CommitGuards(w: World, s: nat)
    requires Invariant(w) && s < |w.sessions| && w.sessions[s].phase.Written?
    requires w.sessions[s].plan.kind == Revalidation
    ensures
      var p := w.sessions[s].plan;
      var v := Put(w.(db := Commit(w.db, w.sessions[s])), s, Ended(Committed(w.sessions[s].phase.receipt)));
      p in v.db.audits && Guarded(v, p.cycle, v.db.audits[p].cycle)
  {
    assert StillVerified(w.db, w.sessions[s]);
    assert HoldsRows(w.sessions[s], w.sessions[s].plan.cycle);
    hide Sound, CreatorsReady, DistinctSuccessors, HorizonsExclusive, KeysExclusive, EventBound, RowMatches;
    forall i | 0 <= i < |w.sessions| && i != s && Sure(w.sessions[i])
      ensures w.sessions[i].plan.cycle != w.sessions[s].plan.cycle
    {
      assert HoldsRows(w.sessions[i], w.sessions[i].plan.cycle);
    }
  }

  lemma {:induction false} StepGuards(w: World, e: Event, all: bool)
    requires Invariant(w) && AllGuarded(w, all) && (all ==> KeepsImport(w, e))
    ensures AllGuarded(Step(w, e), all)
  {
    var v := Step(w, e);
    if e.Progress? && !(e.cycle in w.db.cycles && RowsFree(w, e.cycle) && Overwrites(w.db, e.cycle, e.row)) {
      assert v == w;
    } else {
      forall p | p in w.db.audits
        ensures p in v.db.audits && v.db.audits[p] == w.db.audits[p]
        ensures Counted(w.db, p, all) ==> Guarded(v, p.cycle, w.db.audits[p].cycle)
      {
        StepKeepsReceipts(w, e, p);
        if Counted(w.db, p, all) {
          MarkIsSpared(w, e, p, all);
          GuardStep(w, e, p.cycle, w.db.audits[p].cycle);
        }
        hide Invariant, Step, Guarded, SparesMark;
      }
      NewRecordGuards(w, e, all);
    }
  }

  /** The same plans are recorded. */
  lemma {:induction false} SameGuards(w: World, v: World, all: bool)
    requires AllGuarded(w, all) && v.db.audits == w.db.audits
    requires forall p :: p in w.db.audits && Counted(w.db, p, all) ==> Guarded(v, p.cycle, w.db.audits[p].cycle)
    ensures AllGuarded(v, all)
  {
    hide Guarded;
  }

  /** A plan that is recorded guards its source, and no counted plan did before. */
  lemma {:induction false} OneMoreGuard(w: World, v: World, p: Plan, receipt: Receipt, all: bool)
    requires AllGuarded(w, all) && v.db.audits == w.db.audits[p := receipt] && p !in w.db.audits
    requires forall q :: q in w.db.audits && Counted(w.db, q, all) ==> Guarded(v, q.cycle, w.db.audits[q].cycle)
    requires p.kind == Revalidation ==> Guarded(v, p.cycle, receipt.cycle)
    requires p.kind == Revalidation ==> forall q :: Counted(w.db, q, all) ==> q.cycle != p.cycle
    ensures AllGuarded(v, all)
  {
    hide Guarded;
    forall q | Counted(v.db, q, all)
      ensures Guarded(v, q.cycle, v.db.audits[q].cycle)
    {
      assert q != p ==> Counted(w.db, q, all);
    }
    forall q, r | Counted(v.db, q, all) && Counted(v.db, r, all) && q.cycle == r.cycle
      ensures q == r
    {
      assert (q != p ==> Counted(w.db, q, all)) && (r != p ==> Counted(w.db, r, all));
    }
  }

  lemma {:induction false} NewRecordGuards(w: World, e: Event, all: bool)
    requires Invariant(w) && AllGuarded(w, all)
    requires forall p :: p in w.db.audits && Counted(w.db, p, all) ==>
      Guarded(Step(w, e), p.cycle, w.db.audits[p].cycle)
    ensures AllGuarded(Step(w, e), all)
  {
    var v := Step(w, e);
    if IsCommit(w, e) {
      var s := w.sessions[e.s];
      CommitKeeps(w, e.s);
      if s.plan.kind == Revalidation {
        CommitGuards(w, e.s);
        forall p | Counted(w.db, p, all)
          ensures p.cycle != s.plan.cycle
        {
          CommitKeepsGuard(w, e.s, p.cycle, w.db.audits[p].cycle);
        }
      }
      assert v == Put(w.(db := Commit(w.db, s)), e.s, Ended(Committed(s.phase.receipt)));
      assert v.db.audits == w.db.audits[s.plan := s.phase.receipt];
      hide Invariant, Step, AllGuarded, Guarded, Counted;
      OneMoreGuard(w, v, s.plan, s.phase.receipt, all);
    } else {
      assert v.db.audits == w.db.audits by {
        if !IsPlatform(e) {
          OtherStepsReadOnly(w, e);
          hide Step;
        } else {
          hide Invariant, HorizonFree, RowsFree, Owned, ManualOn, Overwrites;
        }
      }
      hide Invariant, Step, AllGuarded, Guarded, Counted;
      SameGuards(w, v, all);
    }
  }

  lemma {:induction false} RunGuards(w: World, events: seq<Event>, all: bool)
    requires Invariant(w) && AllGuarded(w, all) && (all ==> KeepsImports(w, events))
    ensures AllGuarded(Run(w, events), all)
  {
    hide Invariant, Step, AllGuarded, KeepsImport;
    if events != [] {
      var before := events[..|events| - 1];
      if all {
        KeepsImportsBefore(w, events);
      }
      RunGuards(w, before, all);
      RunKeeps(w, before);
      StepGuards(Run(w, before), events[|events| - 1], all);
    }
  }

  // ----- at most one -----

  /** At most one recovery is ever recorded for a cycle, whatever states the platform writes: the registered candidates
      refuse a second one, also when the mark is gone. */
  lemma {:induction false} OneRecoveryPerCycle(w: World, events: seq<Event>, p: Plan, q: Plan)
    requires Invariant(w) && p in Run(w, events).db.audits && q in Run(w, events).db.audits
    requires p.kind == q.kind == Recovery && p.cycle == q.cycle
    ensures p == q
  {
    RunKeeps(w, events);
    var db := Run(w, events).db;
    hide Run, AllStillVerified, Exclusive, DistinctSuccessors, CreatorsReady, KeysUnique;
    assert Stands(db, p) && Stands(db, q);
  }

  /** At most one revalidation is ever recorded for a source as long as the platform keeps the import marks, and at most
      one that adds its successor whatever the platform writes. */
  lemma {:induction false} OneImportPerSource(w: World, events: seq<Event>, p: Plan, q: Plan, all: bool)
    requires Invariant(w) && AllGuarded(w, all) && (all ==> KeepsImports(w, events))
    requires Counted(Run(w, events).db, p, all) && Counted(Run(w, events).db, q, all) && p.cycle == q.cycle
    ensures p == q
  {
    RunGuards(w, events, all);
    hide Invariant, Run, Guarded;
  }

  /** For a cycle at most one recovery is recorded, and for a source at most one revalidation if the import marks are
      kept. */
  lemma {:induction false} OnePlanPerCycle(w: World, events: seq<Event>, p: Plan, q: Plan)
    requires Invariant(w) && p in Run(w, events).db.audits && q in Run(w, events).db.audits
    requires p.kind == q.kind && p.cycle == q.cycle
    requires p.kind == Revalidation ==> AllGuarded(w, true) && KeepsImports(w, events)
    ensures p == q
  {
    hide Invariant, Run, AllGuarded, KeepsImports;
    if p.kind == Recovery {
      OneRecoveryPerCycle(w, events, p, q);
    } else {
      OneImportPerSource(w, events, p, q, true);
    }
  }

  /** So at most one cycle names a source in its state. */
  lemma {:induction false} OneSuccessorPerSource(w: World, events: seq<Event>, c: nat, d: nat)
    requires Invariant(w) && AllGuarded(w, true) && KeepsImports(w, events)
    requires c in Run(w, events).db.cycles && d in Run(w, events).db.cycles
    requires Run(w, events).db.cycles[c].importedBy.Some? && Run(w, events).db.cycles[d].importedBy.Some?
    requires Run(w, events).db.cycles[c].importedBy.value.cycle == Run(w, events).db.cycles[d].importedBy.value.cycle
    ensures c == d
  {
    RunKeeps(w, events);
    var db := Run(w, events).db;
    assert MarksRecorded(db, c, db.cycles[c]) && MarksRecorded(db, d, db.cycles[d]);
    hide Run, Invariant, AllGuarded, KeepsImports;
    OneImportPerSource(w, events, db.cycles[c].importedBy.value, db.cycles[d].importedBy.value, true);
  }

  /** Whether operators or ordinary creators bring it, an event key is never given to two cycles. */
  lemma {:induction false} OneCyclePerKey(w: World, events: seq<Event>, c: nat, d: nat)
    requires Invariant(w)
    requires c in Run(w, events).db.cycles && d in Run(w, events).db.cycles
    requires Run(w, events).db.cycles[c].event.Some? && Run(w, events).db.cycles[d].event.Some?
    requires Run(w, events).db.cycles[c].event.value.key == Run(w, events).db.cycles[d].event.value.key
    ensures c == d
  {
    RunKeeps(w, events);
    var db := Run(w, events).db;
    hide Run, AllStillVerified, Exclusive, DistinctSuccessors, CreatorsReady, Recorded;
    var key := db.cycles[c].event.value.key;
    assert HasKey(db.cycles[c], key) && HasKey(db.cycles[d], key);
  }

  // ----- what is written -----

  /** Checks, losers, crashes and replays leave no trace: however many transactions a run holds, it leaves the database
      as it was unless one run with --execute commits or the platform writes. */
  lemma {:induction false} OnlyCommitsWrite(w: World, events: seq<Event>)
    requires forall k :: 0 <= k < |events| ==> !IsCommit(Run(w, events[..k]), events[k]) && !IsPlatform(events[k])
    ensures Run(w, events).db == w.db
  {
    hide Step, IsCommit;
    if events != [] {
      var before := events[..|events| - 1];
      forall k | 0 <= k < |before|
        ensures !IsCommit(Run(w, before[..k]), before[k]) && !IsPlatform(before[k])
      {
        assert before[..k] == events[..k];
      }
      OnlyCommitsWrite(w, before);
      OtherStepsReadOnly(Run(w, before), events[|events| - 1]);
    }
  }

  /** A commit records its own plan and writes one cycle.  A recovery marks the cycle it recovers.  A revalidation
      leaves a successor that bears the event of its plan, in a new cycle, or in an unfinished one without a joint
      branch that was created under the very same request. */
  lemma {:induction false} CommitWritesOneCycle(w: World, e: Event)
    requires Invariant(w) && IsCommit(w, e)
    ensures
      var s, db, after := w.sessions[e.s], w.db, Step(w, e).db;
      var target := s.phase.successor;
      && after.audits == db.audits[s.plan := s.phase.receipt] && s.plan !in db.audits
      && s.plan.cycle in db.cycles && after.cycles == db.cycles[target := s.phase.row] && target in after.cycles
      && match s.plan.kind
         case Recovery => target == s.plan.cycle && after.cycles[target].recoveredBy == Some(s.plan)
         case Revalidation =>
           && target != s.plan.cycle && after.cycles[target].importedBy == Some(s.plan)
           && SameRequest(after.cycles[target], db.cycles[s.plan.cycle], s.plan)
           && (target in db.cycles ==> Reusable(db.cycles[target], db.cycles[s.plan.cycle], s.plan))
  {
    var s := w.sessions[e.s];
    assert StillVerified(w.db, s);
    NotYetRecorded(w.db, s.plan, s.phase.receipt, s.phase.row);
    hide NoSuccessor, EventBound, Sound, Exclusive, DistinctSuccessors, CreatorsReady;
  }

  /** What a write of a session leaves to be committed.  A recovery reactivates its cycle with new evidence, its mark
      and registered candidates, and keeps everything else.  A successor has the horizon of its source and the event of
      the plan; it is active, has its branch and registered candidates, and names its source.  An event that is taken up
      keeps its horizon, its event and the mark of a recovery. */
  lemma {:induction false} WritesWhatThePlanSays(w: World, s: nat, details: nat, target: nat, evidence: nat,
                                                 mentions: set<nat>)
    requires s < |w.sessions| && CanWrite(w, s, target)
    requires Step(w, Write(s, details, target, evidence, mentions)).sessions[s].phase.Written?
    ensures
      var p, db := w.sessions[s].plan, w.db;
      var phase := Step(w, Write(s, details, target, evidence, mentions)).sessions[s].phase;
      && p.cycle in db.cycles && phase.horizon == w.sessions[s].phase.horizon
      && phase.receipt == Receipt(p, phase.successor, phase.added, details)
      && phase.row.status == Active && !phase.row.finished && phase.row.joint && phase.row.registered
      && phase.row.evidence == evidence
      && var source := db.cycles[p.cycle];
         if p.kind == Recovery then
           && phase.successor == p.cycle && !phase.added && phase.row.recoveredBy == Some(p)
           && source == phase.row.(status := source.status, finished := source.finished, evidence := source.evidence,
                                   joint := source.joint, registered := source.registered,
                                   recoveredBy := source.recoveredBy)
         else
           && phase.successor == target && phase.row.importedBy == Some(p) && source.event.Some?
           && phase.row.mentions == mentions + {p.cycle} && !phase.row.retired && !phase.row.closed
           && phase.row.horizon == source.horizon
           && phase.row.event == Some(Request(p.key, source.event.value.budget, p.note))
           && phase.row.recoveredBy == if phase.added then None else db.cycles[target].recoveredBy
  {
    hide NoSuccessor, EventBound, Owned, Reserved;
  }

  /** On the horizon and not retired: active, or a paused research event that has not finished. */
  predicate OwnsHorizon(c: Cycle, horizon: nat) {
    !c.retired && c.horizon == horizon && (c.status.Active? || (c.status.Paused? && c.event.Some? && !c.finished))
  }

  /** An ordinary creation, once it holds its key and finds the horizon unlocked, adds its event exactly when no
      activity owns the horizon and the identifier is free. */
  lemma {:induction false} CreatesExactly(w: World, c: nat, cycle: nat, evidence: nat)
    requires c < |w.creators| && w.creators[c].phase.Holding? && HorizonFree(w, w.creators[c].horizon)
    ensures
      var creator, after := w.creators[c], Step(w, Create(c, cycle, evidence));
      var owned := exists d :: d in w.db.cycles && OwnsHorizon(w.db.cycles[d], creator.horizon);
      && after.creators[c].phase.Done? && after.db.audits == w.db.audits && after.sessions == w.sessions
      && after.db.cycles ==
         if owned || cycle in w.db.cycles || Reserved(w, cycle) then w.db.cycles
         else w.db.cycles[cycle := Cycle(creator.horizon, Some(creator.request), Active, false, false, false, false,
                                         false, evidence, None, None, {})]
  {
    assert forall d :: d in w.db.cycles ==>
      (Owns(w.db.cycles[d], w.creators[c].horizon) <==> OwnsHorizon(w.db.cycles[d], w.creators[c].horizon));
    hide Owns, OwnsHorizon, Reserved, HorizonFree;
  }

  /** The schedule adds a cycle exactly when the horizon is unlocked, no research event is on it, active or paused
      before its end, and the identifier is free. */
  lemma {:induction false} SchedulesExactly(w: World, cycle: nat, horizon: nat, evidence: nat)
    ensures
      var after := Step(w, Schedule(cycle, horizon, evidence));
      var busy := exists d :: d in w.db.cycles && w.db.cycles[d].event.Some?
                              && OwnsHorizon(w.db.cycles[d].(retired := false), horizon);
      after ==
      if cycle in w.db.cycles || Reserved(w, cycle) || !HorizonFree(w, horizon) || busy then w
      else PutCycle(w, cycle, Cycle(horizon, None, Active, false, false, false, false, false, evidence, None, None, {}))
  {
    hide Reserved, HorizonFree;
  }

  // ----- what is carried out was reviewed -----

  /** The plan's cycle is what the plan was reviewed for, and the operator runs the release it was reviewed for. */
  predicate AsReviewed(db: Database, s: Session) {
    && s.plan.cycle in db.cycles && s.plan.release == s.release
    && var c := db.cycles[s.plan.cycle];
       && c.evidence == s.plan.evidence && c.horizon == s.plan.horizon
       && c.finished && c.joint && c.event.Some?
       && if s.plan.kind == Recovery then c.status == Blocked && c.recoveredBy == None && !c.registered
          else c.status == Succeeded && c.registered
  }

  /** Somebody else went on with the plan's cycle: another one mentions it, or was imported from it. */
  ghost predicate Continued(db: Database, p: Plan) {
    if p.kind == Recovery then exists d :: d in db.cycles && d != p.cycle && p.cycle in db.cycles[d].mentions
    else exists d, q :: d in db.cycles && db.cycles[d].importedBy == Some(q) && q.cycle == p.cycle
  }

  /** Under its locks a session verifies its plan exactly when all of this is still so, and fails otherwise: a plan that
      was reviewed on other evidence or for another release is refused. */
  lemma {:induction false} VerifiesExactly(w: World, s: nat)
    requires s < |w.sessions| && w.sessions[s].phase.RowsLocked?
    ensures
      var phase := Step(w, Verify(s)).sessions[s].phase;
      if AsReviewed(w.db, w.sessions[s]) && !Continued(w.db, w.sessions[s].plan)
      then phase == Verified(w.sessions[s].phase.horizon) else phase == Ended(Failed)
  {
    var db, p := w.db, w.sessions[s].plan;
    if p.kind == Revalidation {
      assert NoSuccessor(db, p) ==> !Continued(db, p);
      if d :| d in db.cycles && Imports(db.cycles[d], p.cycle) {
        assert db.cycles[d].importedBy == Some(db.cycles[d].importedBy.value);
      }
    }
  }

  /** In every run, a plan that commits was reviewed on just what its cycle holds right before the commit. */
  lemma {:induction false} CommitsAsReviewed(w: World, events: seq<Event>, k: nat)
    requires Invariant(w) && k < |events| && IsCommit(Run(w, events[..k]), events[k])
    ensures AsReviewed(Run(w, events[..k]).db, Run(w, events[..k]).sessions[events[k].s])
  {
    RunKeeps(w, events[..k]);
    var before := Run(w, events[..k]);
    hide Run, Sound, Exclusive, DistinctSuccessors, CreatorsReady, ReadyToCommit;
    assert StillVerified(before.db, before.sessions[events[k].s]);
  }

  lemma {:induction false} StepKeepsReceipts(w: World, e: Event, p: Plan)
    requires Invariant(w) && p in w.db.audits
    ensures p in Step(w, e).db.audits && Step(w, e).db.audits[p] == w.db.audits[p]
  {
    if IsCommit(w, e) {
      CommitKeeps(w, e.s);
      hide Invariant;
    } else if !IsPlatform(e) {
      OtherStepsReadOnly(w, e);
      hide Step;
    } else {
      hide Invariant, HorizonFree, RowsFree, Owned, ManualOn, Overwrites;
    }
  }

  /** A stored receipt never changes. */
  lemma {:induction false} ReceiptsPersist(w: World, events: seq<Event>, p: Plan)
    requires Invariant(w) && p in w.db.audits
    ensures p in Run(w, events).db.audits && Run(w, events).db.audits[p] == w.db.audits[p]
  {
    hide Invariant, Step;
    if events != [] {
      RunKeeps(w, events[..|events| - 1]);
      ReceiptsPersist(w, events[..|events| - 1], p);
      StepKeepsReceipts(Run(w, events[..|events| - 1]), events[|events| - 1], p);
    }
  }

  /** What a session of a recorded plan can come to: it has not begun, it handed back the receipt, or it was aborted. */
  predicate OnlyReplays(s: Session, receipt: Receipt) {
    s.phase.Started? || s.phase == Ended(Replayed(receipt)) || s.phase == Ended(Failed)
  }

  lemma {:induction false} StepOnlyReplays(w: World, e: Event, i: nat)
    requires i < |w.sessions| && w.sessions[i].plan in w.db.audits
    requires OnlyReplays(w.sessions[i], w.db.audits[w.sessions[i].plan])
    ensures i < |Step(w, e).sessions| && Step(w, e).sessions[i].plan == w.sessions[i].plan
    ensures OnlyReplays(Step(w, e).sessions[i], w.db.audits[w.sessions[i].plan])
  {
    hide HorizonFree, RowsFree, KeyFree, HorizonOf, PlanHolds, WritePhase, Commit, EventBound, Owned, ManualOn;
    hide Overwrites;
  }

  lemma {:induction false} SpawnedIsStarted(w: World, e: Event, i: nat)
    requires |w.sessions| <= i < |Step(w, e).sessions|
    ensures Step(w, e).sessions[i].phase.Started?
  {
    hide HorizonFree, RowsFree, KeyFree, HorizonOf, PlanHolds, WritePhase, CanWrite, Commit, EventBound, Owned;
    hide ManualOn, Overwrites;
  }

  /** Once a plan is recorded, running it again any number of times, next to anything else, can only hand back the
      stored receipt: no such transaction locks, verifies or writes. */
  lemma {:induction false} RecordedPlansOnlyReplay(w: World, events: seq<Event>, i: nat)
    requires Invariant(w) && i < |Run(w, events).sessions| && Run(w, events).sessions[i].plan in w.db.audits
    requires i < |w.sessions| ==> w.sessions[i].phase.Started?
    ensures OnlyReplays(Run(w, events).sessions[i], w.db.audits[Run(w, events).sessions[i].plan])
  {
    hide Invariant, Step, OnlyReplays;
    if events == [] {
      StartedReplays(w.sessions[i], w.db.audits[w.sessions[i].plan]);
    } else {
      var before, e := events[..|events| - 1], events[|events| - 1];
      RunKeeps(w, before);
      if i < |Run(w, before).sessions| {
        PlanStays(Run(w, before), e, i);
        RecordedPlansOnlyReplay(w, before, i);
        ReceiptsPersist(w, before, Run(w, before).sessions[i].plan);
        StepOnlyReplays(Run(w, before), e, i);
      } else {
        SpawnedIsStarted(Run(w, before), e, i);
        StartedReplays(Run(w, events).sessions[i], w.db.audits[Run(w, events).sessions[i].plan]);
      }
    }
  }

  lemma {:induction false} StartedReplays(s: Session, receipt: Receipt)
    requires s.phase.Started?
    ensures OnlyReplays(s, receipt)
  {
  }

  lemma {:induction false} PlanStays(w: World, e: Event, i: nat)
    requires i < |w.sessions|
    ensures i < |Step(w, e).sessions| && Step(w, e).sessions[i].plan == w.sessions[i].plan
  {
    hide HorizonFree, RowsFree, KeyFree, HorizonOf, PlanHolds, WritePhase, CanWrite, Commit, EventBound, Owned;
    hide ManualOn, Overwrites, LookForReceiptPhase;
  }

  // ----- endings and receipts -----

  predicate EndedWith(s: Session, committed: bool) {
    s.phase.Ended? && (if committed then s.phase.ending.Committed? else s.phase.ending.Replayed?)
  }

  /** Sessions that committed or replayed hold the stored receipt of their plan, and no plan was committed twice. */
  ghost predicate Settled(w: World) {
    && (forall i :: 0 <= i < |w.sessions| && (EndedWith(w.sessions[i], true) || EndedWith(w.sessions[i], false)) ==>
          w.sessions[i].plan in w.db.audits && w.db.audits[w.sessions[i].plan] == w.sessions[i].phase.ending.receipt)
    && (forall i, j :: 0 <= i < j < |w.sessions| && EndedWith(w.sessions[i], true) && EndedWith(w.sessions[j], true) ==>
          w.sessions[i].plan != w.sessions[j].plan)
  }

  /** Steps of sessions that neither commit nor replay leave the endings of the others alone. */
  lemma {:induction false} SettledElsewhere(w: World, s: nat, phase: Phase)
    requires Settled(w) && s < |w.sessions| && !w.sessions[s].phase.Ended?
    requires phase.Ended? ==> phase.ending.Failed? || phase.ending.RolledBack?
    ensures Settled(Put(w, s, phase))
  {
  }

  lemma {:induction false} StepSettles(w: World, e: Event)
    requires Invariant(w) && Settled(w)
    ensures Settled(Step(w, e))
  {
    hide Invariant, HorizonFree, RowsFree, HorizonOf, PlanHolds;
    if IsCommit(w, e) {
      CommitKeeps(w, e.s);
      CommitSettles(w, e.s);
      hide Settled, Commit;
    } else if e.LookForReceipt? {
      if e.s < |w.sessions| && w.sessions[e.s].phase.Started? && w.sessions[e.s].plan in w.db.audits {
        ReplaySettles(w, e.s);
        hide Settled;
      } else if e.s < |w.sessions| && w.sessions[e.s].phase.Started? {
        SettledElsewhere(w, e.s, LookForReceiptPhase(w.db, w.sessions[e.s]));
        hide Settled;
      }
    } else {
      OtherStepsSettle(w, e);
    }
  }

  lemma {:induction false} CommitSettles(w: World, s: nat)
    requires Settled(w) && s < |w.sessions| && w.sessions[s].phase.Written? && w.sessions[s].plan !in w.db.audits
    ensures Settled(Put(w.(db := Commit(w.db, w.sessions[s])), s, Ended(Committed(w.sessions[s].phase.receipt))))
  {
  }

  lemma {:induction false} ReplaySettles(w: World, s: nat)
    requires Settled(w) && s < |w.sessions| && w.sessions[s].phase.Started? && w.sessions[s].plan in w.db.audits
    ensures Settled(Put(w, s, Ended(Replayed(w.db.audits[w.sessions[s].plan]))))
  {
  }

  lemma {:induction false} PlatformSettles(w: World, after: World)
    requires Settled(w) && after.sessions == w.sessions && after.db.audits == w.db.audits
    ensures Settled(after)
  {
  }

  lemma {:induction false} OtherStepsSettle(w: World, e: Event)
    requires Settled(w) && !IsCommit(w, e) && !e.LookForReceipt?
    ensures Settled(Step(w, e))
  {
    hide HorizonFree, RowsFree, KeyFree, HorizonOf, PlanHolds, Reserved, NoSuccessor, EventBound, Owned, ManualOn;
    hide Overwrites, CanTake;
    match e
    case Spawn(plan, mode, release) =>
    case LookForReceipt(s) =>
    case LockHorizon(s) =>
      if Step(w, e) != w {
        SettledElsewhere(w, s, HorizonLocked(HorizonOf(w.db, w.sessions[s].plan)));
      }
    case LockRows(s) =>
      if Step(w, e) != w {
        SettledElsewhere(w, s, RowsLocked(w.sessions[s].phase.horizon));
      }
    case Verify(s) =>
      if s < |w.sessions| && w.sessions[s].phase.RowsLocked? {
        SettledElsewhere(w, s, Ended(Failed));
        SettledElsewhere(w, s, Verified(w.sessions[s].phase.horizon));
      }
    case LockEvent(s) =>
      if Step(w, e) != w {
        SettledElsewhere(w, s, EventLocked(w.sessions[s].phase.horizon));
      }
    case Write(s, details, target, evidence, mentions) =>
      if Step(w, e) != w {
        SettledElsewhere(w, s, WritePhase(w, w.sessions[s], w.sessions[s].phase.horizon, details, target, evidence,
                                          mentions));
      }
    case Finish(s) =>
      if Step(w, e) != w {
        SettledElsewhere(w, s, Ended(RolledBack));
      }
    case Abort(s) =>
      if Step(w, e) != w {
        SettledElsewhere(w, s, Ended(Failed));
      }
    case _ => PlatformSettles(w, Step(w, e));
  }

  lemma {:induction false} RunSettles(w: World, events: seq<Event>)
    requires Invariant(w) && Settled(w)
    ensures Invariant(Run(w, events)) && Settled(Run(w, events))
  {
    hide Invariant, Settled, Step;
    if events != [] {
      RunSettles(w, events[..|events| - 1]);
      StepKeeps(Run(w, events[..|events| - 1]), events[|events| - 1]);
      StepSettles(Run(w, events[..|events| - 1]), events[|events| - 1]);
    }
  }

  /** However many operators run, at most one transaction commits per recovered cycle, and per revalidated source as
      long as the import marks are kept. */
  lemma {:induction false} AtMostOneCommit(w: World, events: seq<Event>, i: nat, j: nat)
    requires Invariant(w) && Settled(w)
    requires i < |Run(w, events).sessions| && j < |Run(w, events).sessions|
    requires EndedWith(Run(w, events).sessions[i], true) && EndedWith(Run(w, events).sessions[j], true)
    requires Run(w, events).sessions[i].plan.kind == Run(w, events).sessions[j].plan.kind
    requires Run(w, events).sessions[i].plan.cycle == Run(w, events).sessions[j].plan.cycle
    requires Run(w, events).sessions[i].plan.kind == Revalidation ==> AllGuarded(w, true) && KeepsImports(w, events)
    ensures i == j
  {
    RunSettles(w, events);
    OnePlanPerCycle(w, events, Run(w, events).sessions[i].plan, Run(w, events).sessions[j].plan);
    hide Invariant, Run;
  }

  /** A run may start from any database without marks whose event keys differ, before any operator or creator. */
  lemma {:induction false} StartsWell(db: Database)
    requires db.audits == map[] && KeysUnique(db)
    requires forall c :: c in db.cycles ==> db.cycles[c].recoveredBy.None? && db.cycles[c].importedBy.None?
    ensures Invariant(World(db, [], [])) && Settled(World(db, [], []))
    ensures AllGuarded(World(db, [], []), true) && AllGuarded(World(db, [], []), false)
  {
  }
}
