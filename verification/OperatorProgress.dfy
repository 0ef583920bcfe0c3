/** When a verified plan goes through. */
module OperatorProgress {
  import opened Values
  import opened OperatorSteps
  import opened OperatorTransactions

  // ----- verification is stable -----

  /** What can still refuse a verified plan.  For a recovery: another cycle mentions the recovered one by now.  For a
      revalidation: the event key is bound to another request, or to an activity that is finished, closed or has its
      joint branch; or the key is unbound and another activity owns the horizon, or the identifier of the successor is
      taken. */
  ghost predicate Refused(w: World, p: Plan, target: nat)
    requires p.cycle in w.db.cycles
  {
    match p.kind
    case Recovery => !NoSuccessor(w.db, p)
    case Revalidation =>
      if EventBound(w.db, p.key)
      then target !in w.db.cycles || !Reusable(w.db.cycles[target], w.db.cycles[p.cycle], p)
      else Owned(w.db, p.horizon) || target in w.db.cycles || Reserved(w, target)
  }

  /** Once verified, nothing else refuses a plan: what was verified cannot have changed. */
  lemma {:induction false} SecondReadingAgrees(w: World, s: nat, details: nat, target: nat, evidence: nat,
                                               mentions: set<nat>)
    requires Invariant(w) && s < |w.sessions| && CanWrite(w, s, target)
    ensures w.sessions[s].plan.cycle in w.db.cycles
    ensures
      var after := Step(w, Write(s, details, target, evidence, mentions));
      if Refused(w, w.sessions[s].plan, target) then after.sessions[s].phase == Ended(Failed)
      else after.sessions[s].phase.Written?
  {
    assert StillVerified(w.db, w.sessions[s]);
    hide NoSuccessor, Reserved, Exclusive, Sound, DistinctSuccessors, CreatorsReady, EventBound, Owned, CanTake;
  }

  // ----- one uncontested transaction -----

  /** Locks are free, and the event can be written. */
  ghost predicate Uncontested(w: World, s: nat, target: nat)
    requires s < |w.sessions|
  {
    var p := w.sessions[s].plan;
    && w.sessions[s].phase.Started? && p !in w.db.audits
    && PlanHolds(w.db, p, w.sessions[s].release) && !Refused(w, p, target)
    && HorizonFree(w, p.horizon) && RowsFree(w, p.cycle)
    && (p.kind == Revalidation ==> KeyFree(w, p.key) && (target in w.db.cycles ==> RowsFree(w, target)))
  }

  /** The statements of one session, one after the other; a recovery locks no event. */
  function Statements(s: nat, details: nat, target: nat, evidence: nat, mentions: set<nat>): seq<Event> {
    [LookForReceipt(s), LockHorizon(s), LockRows(s), Verify(s), LockEvent(s),
     Write(s, details, target, evidence, mentions), Finish(s)]
  }

  lemma {:induction false} RunAppend(w: World, events: seq<Event>, e: Event)
    ensures Run(w, events + [e]) == Step(Run(w, events), e)
  {
    hide Step;
    assert (events + [e])[..|events|] == events;
  }

  /** The first four statements verify the plan. */
  lemma {:induction false} RunToVerified(w: World, s: nat, target: nat)
    requires s < |w.sessions| && Uncontested(w, s, target)
    ensures Run(w, [LookForReceipt(s), LockHorizon(s), LockRows(s), Verify(s)])
         == Put(w, s, Verified(w.sessions[s].plan.horizon))
  {
    var horizon := w.sessions[s].plan.horizon;
    hide NoSuccessor, Refused, KeyFree;
    var w1 := Put(w, s, NoReceipt);
    assert Step(w, LookForReceipt(s)) == w1;
    var w2 := Put(w, s, HorizonLocked(horizon));
    assert Step(w1, LockHorizon(s)) == w2 by {
      assert Put(w1, s, HorizonLocked(horizon)) == w2;
    }
    var w3 := Put(w, s, RowsLocked(horizon));
    assert Step(w2, LockRows(s)) == w3 by {
      assert Put(w2, s, RowsLocked(horizon)) == w3;
    }
    var w4 := Put(w, s, Verified(horizon));
    assert Step(w3, Verify(s)) == w4 by {
      assert Put(w3, s, Verified(horizon)) == w4;
    }
    hide Step;
    assert Run(w, []) == w;
    RunAppend(w, [], LookForReceipt(s));
    RunAppend(w, [LookForReceipt(s)], LockHorizon(s));
    RunAppend(w, [LookForReceipt(s), LockHorizon(s)], LockRows(s));
    RunAppend(w, [LookForReceipt(s), LockHorizon(s), LockRows(s)], Verify(s));
    assert [] + [LookForReceipt(s)] == [LookForReceipt(s)];
    assert [LookForReceipt(s)] + [LockHorizon(s)] == [LookForReceipt(s), LockHorizon(s)];
    assert [LookForReceipt(s), LockHorizon(s)] + [LockRows(s)] == [LookForReceipt(s), LockHorizon(s), LockRows(s)];
    assert [LookForReceipt(s), LockHorizon(s), LockRows(s)] + [Verify(s)]
        == [LookForReceipt(s), LockHorizon(s), LockRows(s), Verify(s)];
  }

  /** The cycle as the transaction writes it. */
  function Target(p: Plan, target: nat): nat {
    if p.kind == Recovery then p.cycle else target
  }

  function ReceiptOf(db: Database, p: Plan, target: nat, details: nat): Receipt {
    Receipt(p, Target(p, target), p.kind == Revalidation && target !in db.cycles, details)
  }

  function TargetRow(db: Database, p: Plan, target: nat, evidence: nat, mentions: set<nat>): Cycle
    requires p.cycle in db.cycles && db.cycles[p.cycle].event.Some?
  {
    if p.kind == Recovery then RecoveredRow(db.cycles[p.cycle], p, evidence)
    else if target in db.cycles then ReusedRow(db.cycles[target], p, evidence, mentions)
    else SuccessorRow(db.cycles[p.cycle], p, evidence, mentions)
  }

  /** The next two write. */
  lemma {:induction false} UncontestedWrite(w: World, s: nat, details: nat, target: nat, evidence: nat,
                                            mentions: set<nat>)
    requires s < |w.sessions| && Uncontested(w, s, target)
    ensures
      var p := w.sessions[s].plan;
      var before := Step(Put(w, s, Verified(p.horizon)), LockEvent(s));
      Step(before, Write(s, details, target, evidence, mentions))
      == Put(w, s, Written(p.horizon, ReceiptOf(w.db, p, target, details), Target(p, target),
                           TargetRow(w.db, p, target, evidence, mentions),
                           p.kind == Revalidation && target !in w.db.cycles))
  {
    var p := w.sessions[s].plan;
    var verified := Put(w, s, Verified(p.horizon));
    var before := Put(w, s, if p.kind == Recovery then Verified(p.horizon) else EventLocked(p.horizon));
    assert Step(verified, LockEvent(s)) == before by {
      assert KeyFree(w, p.key) ==> KeyFree(verified, p.key);
      hide NoSuccessor, Refused, HorizonFree, RowsFree, EventBound;
    }
    var phase := Written(p.horizon, ReceiptOf(w.db, p, target, details), Target(p, target),
                         TargetRow(w.db, p, target, evidence, mentions),
                         p.kind == Revalidation && target !in w.db.cycles);
    assert !Reserved(w, target) ==> !Reserved(before, target);
    assert WritePhase(before, before.sessions[s], p.horizon, details, target, evidence, mentions) == phase by {
      hide NoSuccessor, KeyFree, HorizonFree, RowsFree, EventBound, Owned, Reserved, SuccessorRow, RecoveredRow;
      hide ReusedRow;
    }
    assert CanWrite(before, s, target) by {
      hide NoSuccessor, KeyFree, HorizonFree, EventBound, Owned, Reserved;
    }
    hide WritePhase, CanWrite, Uncontested, TargetRow;
    assert Put(before, s, phase) == Put(w, s, phase);
  }

  /** A valid plan that nobody contests goes through: executed it commits, checked it is rolled back without a trace. */
  lemma {:induction false} UncontestedPlanCommits(w: World, s: nat, details: nat, target: nat, evidence: nat,
                                                  mentions: set<nat>)
    requires s < |w.sessions| && Uncontested(w, s, target)
    ensures
      var after := Run(w, Statements(s, details, target, evidence, mentions));
      var p := w.sessions[s].plan;
      && |after.sessions| == |w.sessions| && after.creators == w.creators
      && (forall i :: 0 <= i < |w.sessions| && i != s ==> after.sessions[i] == w.sessions[i])
      && if w.sessions[s].mode == CheckOnly then after.sessions[s].phase == Ended(RolledBack) && after.db == w.db
      else
        && after.sessions[s].phase == Ended(Committed(ReceiptOf(w.db, p, target, details)))
        && after.db.audits == w.db.audits[p := ReceiptOf(w.db, p, target, details)]
        && after.db.cycles == w.db.cycles[Target(p, target) := TargetRow(w.db, p, target, evidence, mentions)]
  {
    RunToVerified(w, s, target);
    UncontestedWrite(w, s, details, target, evidence, mentions);
    var four := [LookForReceipt(s), LockHorizon(s), LockRows(s), Verify(s)];
    var write := Write(s, details, target, evidence, mentions);
    hide Step, Run;
    RunAppend(w, four, LockEvent(s));
    RunAppend(w, four + [LockEvent(s)], write);
    RunAppend(w, four + [LockEvent(s)] + [write], Finish(s));
    assert four + [LockEvent(s)] + [write] + [Finish(s)] == Statements(s, details, target, evidence, mentions);
    FinishWritten(w, s, details, target, evidence, mentions);
  }

  lemma {:induction false} FinishWritten(w: World, s: nat, details: nat, target: nat, evidence: nat, mentions: set<nat>)
    requires s < |w.sessions| && Uncontested(w, s, target)
    ensures
      var p := w.sessions[s].plan;
      var written := Put(w, s, Written(p.horizon, ReceiptOf(w.db, p, target, details), Target(p, target),
                                       TargetRow(w.db, p, target, evidence, mentions),
                                       p.kind == Revalidation && target !in w.db.cycles));
      var after := Step(written, Finish(s));
      && |after.sessions| == |w.sessions| && after.creators == w.creators
      && (forall i :: 0 <= i < |w.sessions| && i != s ==> after.sessions[i] == w.sessions[i])
      && if w.sessions[s].mode == CheckOnly then after.sessions[s].phase == Ended(RolledBack) && after.db == w.db
      else
        && after.sessions[s].phase == Ended(Committed(ReceiptOf(w.db, p, target, details)))
        && after.db.audits == w.db.audits[p := ReceiptOf(w.db, p, target, details)]
        && after.db.cycles == w.db.cycles[Target(p, target) := TargetRow(w.db, p, target, evidence, mentions)]
  {
    hide TargetRow, NoSuccessor, Refused, HorizonFree, RowsFree, KeyFree;
  }
}
