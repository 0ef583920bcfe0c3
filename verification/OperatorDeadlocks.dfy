/** Who can finish while transactions wait for each other's locks. */
module OperatorDeadlocks {
  import opened Values
  import opened OperatorSteps
  import opened OperatorTransactions
  import opened OperatorProgress

  // ----- who needs whom -----

  /** A revalidation that will have to lock its event: it is verified, or it will be. */
  predicate WillLockEvent(db: Database, s: Session) {
    && s.plan.kind == Revalidation
    && (s.phase.Verified? || ((s.phase.HorizonLocked? || s.phase.RowsLocked?) && PlanHolds(db, s.plan, s.release)))
  }

  ghost predicate NeedsRows(w: World, s: nat, sessions: set<nat>)
    requires s < |w.sessions|
  {
    w.sessions[s].phase.HorizonLocked?
    && exists u :: u in sessions && u < |w.sessions| && HoldsRows(w.sessions[u], w.sessions[s].plan.cycle)
  }

  ghost predicate NeedsKey(w: World, s: nat, sessions: set<nat>, creators: set<nat>)
    requires s < |w.sessions|
  {
    var key := w.sessions[s].plan.key;
    WillLockEvent(w.db, w.sessions[s])
    && ((exists u :: u in sessions && u < |w.sessions| && HoldsKey(w.sessions[u], key))
        || exists c :: c in creators && c < |w.creators| && CreatorHolds(w.creators[c], key))
  }

  ghost predicate SessionNeeds(w: World, s: nat, sessions: set<nat>, creators: set<nat>) {
    s < |w.sessions| && (NeedsRows(w, s, sessions) || NeedsKey(w, s, sessions, creators))
  }

  ghost predicate CreatorNeeds(w: World, c: nat, sessions: set<nat>) {
    && c < |w.creators| && w.creators[c].phase.Holding?
    && exists u :: u in sessions && u < |w.sessions| && HoldsHorizon(w.sessions[u], w.creators[c].horizon)
  }

  /** Each of these transactions needs a lock that another of them holds. */
  ghost predicate Deadlocked(w: World, sessions: set<nat>, creators: set<nat>) {
    && (forall s :: s in sessions ==> SessionNeeds(w, s, sessions, creators))
    && (forall c :: c in creators ==> CreatorNeeds(w, c, sessions))
  }

  /** A statement of a transaction that has begun, as against aborts, arrivals and the rest of the platform. */
  predicate IsStatement(e: Event) {
    || e.LookForReceipt? || e.LockHorizon? || e.LockRows? || e.Verify? || e.LockEvent? || e.Write? || e.Finish?
    || e.LockKey? || e.Create?
  }

  predicate AllStatements(events: seq<Event>) {
    forall k :: 0 <= k < |events| ==> IsStatement(events[k])
  }

  /** The transactions come from `w` to `v` by their own statements, and nobody is aborted. */
  ghost predicate Reaches(w: World, v: World) {
    exists events :: AllStatements(events) && Run(w, events) == v
  }

  lemma {:induction false} ReachesSelf(w: World)
    ensures Reaches(w, w)
  {
    assert AllStatements([]) && Run(w, []) == w;
  }

  lemma {:induction false} ReachesStep(w: World, v: World, e: Event)
    requires Reaches(w, v) && IsStatement(e)
    ensures Reaches(w, Step(v, e))
  {
    hide Step;
    var events :| AllStatements(events) && Run(w, events) == v;
    RunAppend(w, events, e);
    assert AllStatements(events + [e]);
  }

  lemma {:induction false} ReachesRun(w: World, v: World, events: seq<Event>)
    requires Reaches(w, v) && AllStatements(events)
    ensures Reaches(w, Run(v, events))
    decreases |events|
  {
    hide Step, Reaches;
    if events != [] {
      ReachesRun(w, v, events[..|events| - 1]);
      ReachesStep(w, Run(v, events[..|events| - 1]), events[|events| - 1]);
    }
  }

  lemma {:induction false} ReachesTrans(w: World, v: World, u: World)
    requires Reaches(w, v) && Reaches(v, u)
    ensures Reaches(w, u)
  {
    var events :| AllStatements(events) && Run(v, events) == u;
    ReachesRun(w, v, events);
  }

  // ----- a deadlock stays -----

  /** A commit cannot spoil the plan of a revalidation that holds its horizon. */
  lemma {:induction false} CommitSparesPlan(w: World, x: nat, s: nat)
    requires Invariant(w) && x < |w.sessions| && s < |w.sessions| && x != s && w.sessions[x].phase.Written?
    requires Locked(w.sessions[s]) && w.sessions[s].plan.kind == Revalidation
    requires PlanHolds(w.db, w.sessions[s].plan, w.sessions[s].release)
    ensures PlanHolds(Commit(w.db, w.sessions[x]), w.sessions[s].plan, w.sessions[s].release)
  {
    var a, b := w.sessions[x], w.sessions[s];
    assert StillVerified(w.db, a) && StillVerified(w.db, b);
    hide Sound, CreatorsReady, RowsExclusive, KeysExclusive, DistinctSuccessors, EventBound;
    assert a.phase.successor != b.plan.cycle;
    assert HoldsHorizon(a, a.phase.horizon) && HoldsHorizon(b, b.phase.horizon);
    assert !(a.plan.kind == Revalidation && a.plan.cycle == b.plan.cycle);
    ImportSpares(w.db, a, b.plan.cycle);
    hide StillVerified;
  }

  /** What a member of a deadlock does meanwhile: it stays, or goes on to the lock it cannot get. */
  predicate Lingers(a: Session, b: Session) {
    && b.plan == a.plan && b.release == a.release && Locked(b)
    && (b == a || (Locked(a) && b.phase.horizon == a.phase.horizon && (b.phase.RowsLocked? || b.phase.Verified?)
                   && (a.phase.HorizonLocked? || a.phase.RowsLocked?)))
  }

  /** The plan of a member holds on. */
  lemma {:induction false} StatementSparesPlan(w: World, e: Event, s: nat)
    requires Invariant(w) && IsStatement(e) && s < |w.sessions| && WillLockEvent(w.db, w.sessions[s])
    requires PlanHolds(w.db, w.sessions[s].plan, w.sessions[s].release)
    ensures PlanHolds(Step(w, e).db, w.sessions[s].plan, w.sessions[s].release)
  {
    if e.Finish? && e.s < |w.sessions| && w.sessions[e.s].phase.Written? {
      CommitSparesPlan(w, e.s, s);
      hide Invariant, PlanHolds, Commit;
    } else {
      hide Invariant, HorizonFree, RowsFree, KeyFree, HorizonOf, LookForReceiptPhase, WritePhase, CanWrite, EventBound;
      hide Owned;
    }
  }

  /** A session that waits for a lock does not get it by any statement. */
  predicate Waits(w: World, s: nat)
    requires s < |w.sessions|
  {
    WaitsForRows(w, s) || (WillLockEvent(w.db, w.sessions[s]) && !KeyFree(w, w.sessions[s].plan.key))
  }

  predicate WaitsForRows(w: World, s: nat)
    requires s < |w.sessions|
  {
    w.sessions[s].phase.HorizonLocked? && !RowsFree(w, w.sessions[s].plan.cycle)
  }

  lemma {:induction false} MemberWaits(w: World, sessions: set<nat>, creators: set<nat>, s: nat)
    requires Deadlocked(w, sessions, creators) && s in sessions
    ensures s < |w.sessions| && Locked(w.sessions[s]) && Waits(w, s)
    ensures !w.sessions[s].phase.EventLocked? && !w.sessions[s].phase.Written?
  {
    assert SessionNeeds(w, s, sessions, creators);
    hide PlanHolds;
  }

  lemma {:induction false} WaitingLingers(w: World, e: Event, s: nat)
    requires IsStatement(e) && s < |w.sessions| && Waits(w, s)
    ensures s < |Step(w, e).sessions| && Lingers(w.sessions[s], Step(w, e).sessions[s])
    ensures WaitsForRows(w, s) || !WillLockEvent(w.db, w.sessions[s]) ==> Step(w, e).sessions[s] == w.sessions[s]
  {
    hide PlanHolds, HorizonFree, RowsFree, KeyFree, HorizonOf, LookForReceiptPhase, WritePhase, CanTake, EventBound;
    hide Owned, Reserved, Commit;
  }

  lemma {:induction false} WillStill(w: World, e: Event, s: nat)
    requires Invariant(w) && IsStatement(e) && s < |w.sessions| && Waits(w, s) && WillLockEvent(w.db, w.sessions[s])
    ensures s < |Step(w, e).sessions| && WillLockEvent(Step(w, e).db, Step(w, e).sessions[s])
  {
    WaitingLingers(w, e, s);
    if !w.sessions[s].phase.Verified? {
      StatementSparesPlan(w, e, s);
    }
    hide Invariant, Step, PlanHolds, Waits;
  }

  lemma {:induction false} HolderLingers(w: World, e: Event, sessions: set<nat>, creators: set<nat>, c: nat)
    requires Deadlocked(w, sessions, creators) && IsStatement(e) && c in creators
    ensures c < |w.creators| && c < |Step(w, e).creators| && Step(w, e).creators[c] == w.creators[c]
  {
    assert CreatorNeeds(w, c, sessions);
    assert !HorizonFree(w, w.creators[c].horizon);
    hide Deadlocked, HorizonFree, RowsFree, KeyFree, PlanHolds, HorizonOf, LookForReceiptPhase, WritePhase, CanWrite;
    hide EventBound, Owned, Reserved, Commit;
  }

  /** The members of a deadlock keep their locks and their needs. */
  ghost predicate AllLinger(w: World, v: World, sessions: set<nat>, creators: set<nat>) {
    && (forall s :: s in sessions ==> s < |w.sessions| && s < |v.sessions| && Lingers(w.sessions[s], v.sessions[s]))
    && (forall s :: s in sessions && s < |w.sessions| && s < |v.sessions| ==>
          !w.sessions[s].phase.EventLocked? && !w.sessions[s].phase.Written?
          && (WillLockEvent(w.db, w.sessions[s]) ==> WillLockEvent(v.db, v.sessions[s]))
          && (WaitsForRows(w, s) ==> v.sessions[s] == w.sessions[s]))
    && (forall c :: c in creators ==> c < |w.creators| && c < |v.creators| && v.creators[c] == w.creators[c])
  }

  lemma {:induction false} LingeringSession(w: World, v: World, sessions: set<nat>, creators: set<nat>, s: nat)
    requires Deadlocked(w, sessions, creators) && AllLinger(w, v, sessions, creators) && s in sessions
    ensures SessionNeeds(v, s, sessions, creators)
  {
    assert SessionNeeds(w, s, sessions, creators);
    var cycle, key := w.sessions[s].plan.cycle, w.sessions[s].plan.key;
    if NeedsKey(w, s, sessions, creators) {
      assert forall u :: u in sessions ==> !HoldsKey(w.sessions[u], key);
      var c :| c in creators && c < |w.creators| && CreatorHolds(w.creators[c], key);
      assert CreatorHolds(v.creators[c], key);
      hide WillLockEvent;
      assert NeedsKey(v, s, sessions, creators);
    } else {
      var u :| u in sessions && u < |w.sessions| && HoldsRows(w.sessions[u], cycle);
      assert WaitsForRows(w, s);
      assert Lingers(w.sessions[u], v.sessions[u]);
      assert HoldsRows(v.sessions[u], cycle);
      hide WillLockEvent;
      assert NeedsRows(v, s, sessions);
    }
  }

  lemma {:induction false} LingeringNeeds(w: World, v: World, sessions: set<nat>, creators: set<nat>)
    requires Deadlocked(w, sessions, creators) && AllLinger(w, v, sessions, creators)
    ensures Deadlocked(v, sessions, creators)
  {
    hide WillLockEvent;
    forall s | s in sessions
      ensures SessionNeeds(v, s, sessions, creators)
    {
      LingeringSession(w, v, sessions, creators, s);
    }
    forall c | c in creators
      ensures CreatorNeeds(v, c, sessions)
    {
      assert CreatorNeeds(w, c, sessions);
      var u :| u in sessions && u < |w.sessions| && HoldsHorizon(w.sessions[u], w.creators[c].horizon);
      assert Lingers(w.sessions[u], v.sessions[u]);
      assert HoldsHorizon(v.sessions[u], w.creators[c].horizon);
    }
    hide SessionNeeds, CreatorNeeds;
  }

  /** No statement of anybody ends a deadlock. */
  lemma {:induction false} DeadlockStays(w: World, e: Event, sessions: set<nat>, creators: set<nat>)
    requires Invariant(w) && Deadlocked(w, sessions, creators) && IsStatement(e)
    ensures Deadlocked(Step(w, e), sessions, creators)
  {
    hide Invariant, Step, Deadlocked, WillLockEvent, Waits, Lingers, WaitsForRows;
    var v := Step(w, e);
    forall s | s in sessions
      ensures s < |w.sessions| && s < |v.sessions| && Lingers(w.sessions[s], v.sessions[s])
      ensures !w.sessions[s].phase.EventLocked? && !w.sessions[s].phase.Written?
      ensures WillLockEvent(w.db, w.sessions[s]) ==> WillLockEvent(v.db, v.sessions[s])
      ensures WaitsForRows(w, s) ==> v.sessions[s] == w.sessions[s]
    {
      MemberWaits(w, sessions, creators, s);
      WaitingLingers(w, e, s);
      if WillLockEvent(w.db, w.sessions[s]) {
        WillStill(w, e, s);
      }
    }
    forall c | c in creators
      ensures c < |w.creators| && c < |v.creators| && v.creators[c] == w.creators[c]
    {
      HolderLingers(w, e, sessions, creators, c);
    }
    LingeringNeeds(w, v, sessions, creators);
  }

  /** So no run without aborts brings a member to its end, or to its event. */
  lemma {:induction false} DeadlockStaysForever(w: World, events: seq<Event>, sessions: set<nat>, creators: set<nat>)
    requires Invariant(w) && Deadlocked(w, sessions, creators) && AllStatements(events)
    ensures Deadlocked(Run(w, events), sessions, creators)
  {
    hide Invariant, Step, Deadlocked, IsStatement;
    if events != [] {
      DeadlockStaysForever(w, events[..|events| - 1], sessions, creators);
      RunKeeps(w, events[..|events| - 1]);
      assert IsStatement(events[|events| - 1]);
      DeadlockStays(Run(w, events[..|events| - 1]), events[|events| - 1], sessions, creators);
    }
  }

  // ----- whoever is not in a deadlock can finish -----

  /** From `w` to `v` every session but `s`, and every creation, is as it was or finished, and no plan came to hold.
      Verified revalidations are as they were. */
  ghost predicate Beside(w: World, v: World, s: nat) {
    && |v.sessions| == |w.sessions| && |v.creators| == |w.creators|
    && (forall i :: 0 <= i < |w.sessions| && i != s ==> SameOrEnded(w, v, i))
    && (forall c :: 0 <= c < |w.creators| ==> v.creators[c] == w.creators[c] || v.creators[c].phase.Done?)
  }

  predicate SameOrEnded(w: World, v: World, i: nat)
    requires i < |w.sessions| && i < |v.sessions|
  {
    if v.sessions[i].phase.Ended?
    then w.sessions[i].phase.Ended? || !WillWait(w.sessions[i])
    else v.sessions[i] == w.sessions[i] && (WillLockEvent(v.db, v.sessions[i]) ==> WillLockEvent(w.db, w.sessions[i]))
  }

  /** A verified revalidation. */
  predicate WillWait(s: Session) {
    s.phase.Verified? && s.plan.kind == Revalidation
  }

  lemma {:induction false} BesideTrans(w: World, v: World, u: World, s: nat)
    requires Beside(w, v, s) && Beside(v, u, s)
    ensures Beside(w, u, s)
  {
    hide WillLockEvent;
    forall i | 0 <= i < |w.sessions| && i != s
      ensures SameOrEnded(w, u, i)
    {
      assert SameOrEnded(w, v, i) && SameOrEnded(v, u, i);
    }
  }

  /** Somebody else finished first. */
  lemma {:induction false} BesideOther(w: World, v: World, s: nat, y: nat)
    requires Beside(w, v, y) && y < |w.sessions| && v.sessions[y].phase.Ended? && !WillWait(w.sessions[y])
    ensures Beside(w, v, s)
  {
    hide WillLockEvent;
  }

  /** A commit makes no other plan hold. */
  lemma {:induction false} CommitMakesNoPlan(w: World, x: nat, i: nat)
    requires Invariant(w) && x < |w.sessions| && i < |w.sessions| && x != i && w.sessions[x].phase.Written?
    requires WillLockEvent(Commit(w.db, w.sessions[x]), w.sessions[i])
    ensures WillLockEvent(w.db, w.sessions[i])
  {
    var a, b, after := w.sessions[x], w.sessions[i], Commit(w.db, w.sessions[x]);
    assert StillVerified(w.db, a) && StillVerified(w.db, b);
    if !b.phase.Verified? {
      assert b.plan.cycle in w.db.cycles && a.phase.successor != b.plan.cycle;
      NotYetRecorded(w.db, a.plan, a.phase.receipt, a.phase.row);
      forall d | d in w.db.cycles
        ensures !Imports(w.db.cycles[d], b.plan.cycle)
      {
        assert !Imports(after.cycles[d], b.plan.cycle);
      }
    }
    hide Exclusive, CreatorsReady, DistinctSuccessors, EventBound, Sound;
  }

  /** What a statement of one session leaves alone. */
  lemma {:induction false} OwnStatement(w: World, s: nat, e: Event)
    requires Invariant(w) && s < |w.sessions| && Locked(w.sessions[s])
    requires e == LockRows(s) || e == Verify(s) || e == LockEvent(s) || (e.Write? && e.s == s) || e == Finish(s)
    ensures Beside(w, Step(w, e), s)
  {
    var v := Step(w, e);
    if e == Finish(s) && w.sessions[s].phase.Written? && w.sessions[s].mode == Execute {
      forall i | 0 <= i < |w.sessions| && i != s
        ensures SameOrEnded(w, v, i)
      {
        if WillLockEvent(v.db, v.sessions[i]) {
          CommitMakesNoPlan(w, s, i);
        }
        hide Invariant, WillLockEvent, Commit;
      }
      hide Invariant, WillLockEvent, Commit;
    } else {
      hide Invariant, WillLockEvent, HorizonFree, RowsFree, KeyFree, PlanHolds, WritePhase, CanWrite;
    }
  }

  /** Nobody holds a lock that the session will need. */
  predicate NeedsNobody(w: World, s: nat)
    requires s < |w.sessions|
  {
    && (w.sessions[s].phase.HorizonLocked? ==> RowsFree(w, w.sessions[s].plan.cycle))
    && (WillLockEvent(w.db, w.sessions[s]) ==> KeyFree(w, w.sessions[s].plan.key))
  }

  /** The session ended in `v`, and the others are as they were or finished. */
  ghost predicate Ends(w: World, v: World, s: nat) {
    Reaches(w, v) && Invariant(v) && Beside(w, v, s) && s < |v.sessions| && v.sessions[s].phase.Ended?
  }

  /** One statement, then the rest. */
  lemma {:induction false} EndsAfter(w: World, e: Event, v: World, s: nat)
    requires IsStatement(e) && Beside(w, Step(w, e), s) && Ends(Step(w, e), v, s)
    ensures Ends(w, v, s)
  {
    hide Step, Invariant, Beside;
    ReachesSelf(w);
    ReachesStep(w, w, e);
    ReachesTrans(w, Step(w, e), v);
    BesideTrans(w, Step(w, e), v, s);
  }

  lemma {:induction false} EndsNow(w: World, e: Event, s: nat)
    requires Invariant(w) && IsStatement(e) && Beside(w, Step(w, e), s)
    requires s < |Step(w, e).sessions| && Step(w, e).sessions[s].phase.Ended?
    ensures Ends(w, Step(w, e), s)
  {
    StepKeeps(w, e);
    ReachesSelf(w);
    ReachesStep(w, w, e);
    hide Step, Invariant, Beside;
  }

  lemma {:induction false} EndWritten(w: World, s: nat) returns (v: World)
    requires Invariant(w) && s < |w.sessions| && w.sessions[s].phase.Written?
    ensures Ends(w, v, s)
  {
    v := Step(w, Finish(s));
    OwnStatement(w, s, Finish(s));
    assert s < |v.sessions| && v.sessions[s].phase.Ended? by {
      hide Invariant, Commit;
    }
    EndsNow(w, Finish(s), s);
  }

  /** Once it can write, a session ends. */
  lemma {:induction false} EndWriting(w: World, s: nat, target: nat) returns (v: World)
    requires Invariant(w) && s < |w.sessions| && Locked(w.sessions[s]) && CanWrite(w, s, target)
    ensures Ends(w, v, s)
  {
    var e := Write(s, 0, target, 0, {});
    OwnStatement(w, s, e);
    StepKeeps(w, e);
    assert |Step(w, e).sessions| == |w.sessions|
           && (Step(w, e).sessions[s].phase.Ended? || Step(w, e).sessions[s].phase.Written?) by {
      hide Invariant, CanWrite, NoSuccessor, EventBound, Owned, Reserved;
    }
    hide Step, Invariant, CanWrite;
    if Step(w, e).sessions[s].phase.Ended? {
      EndsNow(w, e, s);
      v := Step(w, e);
    } else {
      v := EndWritten(Step(w, e), s);
      EndsAfter(w, e, v, s);
    }
  }

  /** A recovery that has its rows waits for nobody. */
  lemma {:induction false} EndRecovery(w: World, s: nat) returns (v: World)
    requires Invariant(w) && s < |w.sessions| && w.sessions[s].plan.kind == Recovery
    requires w.sessions[s].phase.RowsLocked? || w.sessions[s].phase.Verified? || w.sessions[s].phase.Written?
    ensures Ends(w, v, s)
  {
    hide Invariant, PlanHolds, Ends;
    if w.sessions[s].phase.Written? {
      v := EndWritten(w, s);
    } else if w.sessions[s].phase.Verified? {
      v := EndWriting(w, s, 0);
    } else {
      OwnStatement(w, s, Verify(s));
      StepKeeps(w, Verify(s));
      if Step(w, Verify(s)).sessions[s].phase.Ended? {
        EndsNow(w, Verify(s), s);
        v := Step(w, Verify(s));
      } else {
        v := EndWriting(Step(w, Verify(s)), s, 0);
        EndsAfter(w, Verify(s), v, s);
      }
    }
  }

  /** Who keeps an import from the cycle it takes up waits for nobody: a revalidation of that cycle would hold the same
      horizon. */
  lemma {:induction false} RowHolderIsFree(w: World, s: nat, y: nat, target: nat)
    requires Invariant(w) && s < |w.sessions| && y < |w.sessions| && y != s && w.sessions[s].phase.EventLocked?
    requires target in w.db.cycles && w.sessions[s].plan.cycle in w.db.cycles
    requires SameRequest(w.db.cycles[target], w.db.cycles[w.sessions[s].plan.cycle], w.sessions[s].plan)
    requires HoldsRows(w.sessions[y], target)
    ensures w.sessions[y].phase.Written? || w.sessions[y].plan.kind == Recovery
    ensures w.sessions[y].phase.RowsLocked? || w.sessions[y].phase.Verified? || w.sessions[y].phase.Written?
  {
    assert StillVerified(w.db, w.sessions[s]) && StillVerified(w.db, w.sessions[y]);
    hide Sound, CreatorsReady, DistinctSuccessors, RowsExclusive, KeysExclusive, RowMatches, NoSuccessor, ReadyToCommit;
    assert HoldsHorizon(w.sessions[s], w.db.cycles[target].horizon);
    assert !HoldsHorizon(w.sessions[y], w.db.cycles[target].horizon);
  }

  /** The cycle that the key of an import is bound to is free, or somebody who waits for nobody holds it. */
  lemma {:induction false} EventTarget(w: World, s: nat) returns (target: nat, y: nat)
    requires Invariant(w) && s < |w.sessions| && w.sessions[s].phase.EventLocked?
    ensures
      || CanWrite(w, s, target)
      || (y < |w.sessions| && y != s && HoldsRows(w.sessions[y], target)
          && target in w.db.cycles && HasKey(w.db.cycles[target], w.sessions[s].plan.key)
          && (w.sessions[y].phase.Written? || w.sessions[y].plan.kind == Recovery)
          && (w.sessions[y].phase.RowsLocked? || w.sessions[y].phase.Verified? || w.sessions[y].phase.Written?))
  {
    assert StillVerified(w.db, w.sessions[s]);
    hide Exclusive, Sound, CreatorsReady, DistinctSuccessors, RowMatches, NoSuccessor, ReadyToCommit, HorizonOf;
    var p := w.sessions[s].plan;
    target, y := 0, 0;
    if EventBound(w.db, p.key) {
      target :| target in w.db.cycles && HasKey(w.db.cycles[target], p.key);
      if !CanTake(w, s, target) {
        y :| y < |w.sessions| && y != s && HoldsRows(w.sessions[y], target);
        RowHolderIsFree(w, s, y, target);
      }
    }
  }

  ghost function LockedSessions(w: World): set<nat> {
    set i: nat | i < |w.sessions| && Locked(w.sessions[i])
  }

  ghost function HoldingCreators(w: World): set<nat> {
    set c: nat | c < |w.creators| && w.creators[c].phase.Holding?
  }

  lemma {:induction false} OneFewer(w: World, v: World, s: nat)
    requires Beside(w, v, s) && s < |w.sessions| && Locked(w.sessions[s]) && v.sessions[s].phase.Ended?
    ensures LockedSessions(v) < LockedSessions(w) && HoldingCreators(v) <= HoldingCreators(w)
  {
    hide WillLockEvent;
    forall i | i in LockedSessions(v)
      ensures i in LockedSessions(w)
    {
      assert i != s && SameOrEnded(w, v, i);
    }
    assert s in LockedSessions(w) && s !in LockedSessions(v);
  }

  /** A revalidation that has locked its event ends, after whoever holds the cycle it takes up. */
  lemma {:induction false} EndEventLocked(w: World, s: nat) returns (v: World)
    requires Invariant(w) && s < |w.sessions| && w.sessions[s].phase.EventLocked?
    ensures Ends(w, v, s)
    decreases LockedSessions(w)
  {
    hide Invariant, CanTake, HasKey;
    var target, y := EventTarget(w, s);
    if CanWrite(w, s, target) {
      v := EndWriting(w, s, target);
    } else {
      var first: World;
      if w.sessions[y].phase.Written? {
        first := EndWritten(w, y);
      } else {
        first := EndRecovery(w, y);
      }
      OneFewer(w, first, y);
      assert SameOrEnded(w, first, s);
      BesideOther(w, first, s, y);
      if first.sessions[s].phase.Ended? {
        v := first;
      } else {
        v := EndEventLocked(first, s);
        ReachesTrans(w, first, v);
        BesideTrans(w, first, v, s);
      }
    }
  }

  /** Whoever holds the horizon and needs nobody ends. */
  lemma {:induction false} EndUnhindered(w: World, s: nat) returns (v: World)
    requires Invariant(w) && s < |w.sessions| && Locked(w.sessions[s]) && NeedsNobody(w, s)
    ensures Ends(w, v, s)
    decreases Rank(w.sessions[s].phase)
  {
    if w.sessions[s].phase.EventLocked? {
      v := EndEventLocked(w, s);
    } else if w.sessions[s].phase.Written? {
      v := EndWritten(w, s);
    } else if w.sessions[s].phase.Verified? && w.sessions[s].plan.kind == Recovery {
      v := EndWriting(w, s, 0);
    } else {
      var e := if w.sessions[s].phase.HorizonLocked? then LockRows(s)
        else if w.sessions[s].phase.RowsLocked? then Verify(s) else LockEvent(s);
      OwnStatement(w, s, e);
      StepKeeps(w, e);
      NextNeedsNobody(w, s, e);
      hide Invariant, Step, NeedsNobody, Beside, Ends;
      if Step(w, e).sessions[s].phase.Ended? {
        EndsNow(w, e, s);
        v := Step(w, e);
      } else {
        v := EndUnhindered(Step(w, e), s);
        EndsAfter(w, e, v, s);
      }
    }
  }

  function Rank(phase: Phase): nat {
    match phase
    case HorizonLocked(_) => 3
    case RowsLocked(_) => 2
    case Verified(_) => 1
    case _ => 0
  }

  lemma {:induction false} NextNeedsNobody(w: World, s: nat, e: Event)
    requires Invariant(w) && s < |w.sessions| && Locked(w.sessions[s]) && NeedsNobody(w, s)
    requires !w.sessions[s].phase.EventLocked? && !w.sessions[s].phase.Written?
    requires !(w.sessions[s].phase.Verified? && w.sessions[s].plan.kind == Recovery)
    requires e == if w.sessions[s].phase.HorizonLocked? then LockRows(s)
      else if w.sessions[s].phase.RowsLocked? then Verify(s) else LockEvent(s)
    ensures s < |Step(w, e).sessions|
    ensures
      || Step(w, e).sessions[s].phase.Ended?
      || (Locked(Step(w, e).sessions[s]) && NeedsNobody(Step(w, e), s)
          && Rank(Step(w, e).sessions[s].phase) < Rank(w.sessions[s].phase))
  {
    var key := w.sessions[s].plan.key;
    hide Invariant, PlanHolds, RowsFree, HorizonFree;
    forall phase: Phase | !phase.EventLocked? && !phase.Written? && KeyFree(w, key)
      ensures KeyFree(Put(w, s, phase), key)
    {
    }
    hide KeyFree;
  }

  /** A creation whose horizon is free ends, and leaves the sessions as they were. */
  lemma {:induction false} EndCreation(w: World, c: nat) returns (v: World)
    requires Invariant(w) && c < |w.creators| && w.creators[c].phase.Holding? && HorizonFree(w, w.creators[c].horizon)
    ensures Reaches(w, v) && Invariant(v) && Beside(w, v, |w.sessions|) && v.sessions == w.sessions
    ensures HoldingCreators(v) < HoldingCreators(w)
  {
    var e := Create(c, 0, 0);
    v := Step(w, e);
    StepKeeps(w, e);
    ReachesSelf(w);
    ReachesStep(w, w, e);
    assert v.sessions == w.sessions && v.creators == w.creators[c := w.creators[c].(phase := Done)] by {
      hide Invariant, HorizonFree, EventBound, Owned, Reserved;
    }
    forall i | 0 <= i < |w.sessions|
      ensures SameOrEnded(w, v, i)
    {
      assert StillVerified(w.db, w.sessions[i]);
      if WillLockEvent(v.db, w.sessions[i]) {
        CreationMakesNoPlan(w, c, w.sessions[i]);
      }
      hide Invariant, Step, WillLockEvent;
    }
    hide Invariant, Step;
    assert c in HoldingCreators(w) && c !in HoldingCreators(v);
  }

  lemma {:induction false} CreationMakesNoPlan(w: World, c: nat, s: Session)
    requires c < |w.creators| && StillVerified(w.db, s) && WillLockEvent(Step(w, Create(c, 0, 0)).db, s)
    ensures WillLockEvent(w.db, s)
  {
    var db := Step(w, Create(c, 0, 0)).db;
    assert forall d :: d in w.db.cycles ==> d in db.cycles && db.cycles[d] == w.db.cycles[d] by {
      hide HorizonFree, EventBound, Owned;
    }
    hide Step, RowMatches, ReadyToCommit;
    if !s.phase.Verified? {
      assert forall d :: d in w.db.cycles ==> !Imports(db.cycles[d], s.plan.cycle);
    }
  }

  // ----- the exact condition -----

  /** Finishing others makes no deadlock. */
  lemma {:induction false} DeadlockWasThere(w: World, v: World, t: nat, sessions: set<nat>, creators: set<nat>)
    requires Beside(w, v, t) && (t < |v.sessions| ==> v.sessions[t].phase.Ended?) && Deadlocked(v, sessions, creators)
    ensures Deadlocked(w, sessions, creators)
  {
    forall s | s in sessions
      ensures s < |w.sessions| && v.sessions[s] == w.sessions[s]
      ensures WillLockEvent(v.db, v.sessions[s]) ==> WillLockEvent(w.db, w.sessions[s])
    {
      assert SessionNeeds(v, s, sessions, creators);
      assert SameOrEnded(w, v, s);
      hide WillLockEvent;
    }
    hide WillLockEvent, Beside;
    forall c | c in creators
      ensures c < |w.creators| && v.creators[c] == w.creators[c]
    {
      assert CreatorNeeds(v, c, sessions);
      assert v.creators[c] == w.creators[c] || v.creators[c].phase.Done? by {
        assert Beside(w, v, t);
      }
    }
    forall s | s in sessions
      ensures SessionNeeds(w, s, sessions, creators)
    {
      assert SessionNeeds(v, s, sessions, creators);
    }
    forall c | c in creators
      ensures CreatorNeeds(w, c, sessions)
    {
      assert CreatorNeeds(v, c, sessions);
    }
  }

  /** Unless the holders of locks are deadlocked among themselves, one of them ends. */
  lemma {:induction false} OneEnds(w: World) returns (v: World, t: nat)
    requires Invariant(w) && !Deadlocked(w, LockedSessions(w), HoldingCreators(w))
    ensures Reaches(w, v) && Invariant(v) && Beside(w, v, t)
    ensures t < |w.sessions| ==> Locked(w.sessions[t]) && NeedsNobody(w, t) && v.sessions[t].phase.Ended?
    ensures t < |w.sessions| ==> LockedSessions(v) < LockedSessions(w)
    ensures t >= |w.sessions| ==> LockedSessions(v) == LockedSessions(w) && HoldingCreators(v) < HoldingCreators(w)
  {
    if s: nat :| s in LockedSessions(w) && !SessionNeeds(w, s, LockedSessions(w), HoldingCreators(w)) {
      FreeOfNeeds(w, s);
      hide Invariant, Reaches, SessionNeeds, CreatorNeeds, NeedsNobody;
      t := s;
      v := EndUnhindered(w, s);
      OneFewer(w, v, s);
    } else {
      var c: nat :| c in HoldingCreators(w) && !CreatorNeeds(w, c, LockedSessions(w));
      assert HorizonFree(w, w.creators[c].horizon) by {
        forall u | 0 <= u < |w.sessions|
          ensures !HoldsHorizon(w.sessions[u], w.creators[c].horizon)
        {
          assert u in LockedSessions(w) || !Locked(w.sessions[u]);
        }
      }
      hide Invariant, Reaches, SessionNeeds, CreatorNeeds, NeedsNobody, Beside;
      t := |w.sessions|;
      v := EndCreation(w, c);
    }
  }

  lemma {:induction false} FreeOfNeeds(w: World, s: nat)
    requires s < |w.sessions| && !SessionNeeds(w, s, LockedSessions(w), HoldingCreators(w))
    ensures NeedsNobody(w, s)
  {
    hide WillLockEvent;
    assert forall u: nat :: u < |w.sessions| && Locked(w.sessions[u]) ==> u in LockedSessions(w);
    assert forall c: nat :: c < |w.creators| && w.creators[c].phase.Holding? ==> c in HoldingCreators(w);
  }

  ghost predicate InDeadlock(w: World, s: nat) {
    exists sessions: set<nat>, creators: set<nat> :: s in sessions && Deadlocked(w, sessions, creators)
  }

  /** Everybody in the way ends, one after the other. */
  lemma {:induction false} WayIsCleared(w: World, s: nat) returns (v: World)
    requires Invariant(w) && s < |w.sessions| && WillWait(w.sessions[s]) && !InDeadlock(w, s)
    ensures Reaches(w, v) && Invariant(v) && s < |v.sessions| && v.sessions[s] == w.sessions[s] && NeedsNobody(v, s)
    decreases LockedSessions(w), HoldingCreators(w)
  {
    hide Invariant, Deadlocked, Reaches;
    if NeedsNobody(w, s) {
      ReachesSelf(w);
      v := w;
    } else {
      assert s in LockedSessions(w);
      assert !Deadlocked(w, LockedSessions(w), HoldingCreators(w));
      var next, t := OneEnds(w);
      assert t != s && SameOrEnded(w, next, s);
      if InDeadlock(next, s) {
        var sessions: set<nat>, creators: set<nat> :| s in sessions && Deadlocked(next, sessions, creators);
        DeadlockWasThere(w, next, t, sessions, creators);
      }
      hide Beside, NeedsNobody;
      v := WayIsCleared(next, s);
      ReachesTrans(w, next, v);
    }
  }

  /** A verified revalidation can lock its event, without anybody being aborted, exactly when it is in no deadlock: in
      no set of transactions each of which needs a lock that another of them holds. */
  lemma {:induction false} LocksEventExactly(w: World, s: nat)
    requires Invariant(w) && s < |w.sessions|
    requires w.sessions[s].phase.Verified? && w.sessions[s].plan.kind == Revalidation
    ensures (exists v :: Reaches(w, v) && s < |v.sessions| && v.sessions[s].phase.EventLocked?) <==> !InDeadlock(w, s)
  {
    hide Invariant, Deadlocked, Step;
    if InDeadlock(w, s) {
      var sessions: set<nat>, creators: set<nat> :| s in sessions && Deadlocked(w, sessions, creators);
      forall v | Reaches(w, v)
        ensures !(s < |v.sessions| && v.sessions[s].phase.EventLocked?)
      {
        var events :| AllStatements(events) && Run(w, events) == v;
        DeadlockStaysForever(w, events, sessions, creators);
        MemberWaits(v, sessions, creators, s);
      }
    } else {
      var v := WayIsCleared(w, s);
      ReachesStep(w, v, LockEvent(s));
      LocksNow(v, s);
    }
  }

  lemma {:induction false} LocksNow(w: World, s: nat)
    requires s < |w.sessions| && WillWait(w.sessions[s]) && NeedsNobody(w, s)
    ensures s < |Step(w, LockEvent(s)).sessions| && Step(w, LockEvent(s)).sessions[s].phase.EventLocked?
  {
    hide KeyFree, RowsFree;
  }

  // ----- the whole system -----

  ghost predicate AllFinished(w: World) {
    && (forall s :: 0 <= s < |w.sessions| ==> w.sessions[s].phase.Ended?)
    && (forall c :: 0 <= c < |w.creators| ==> w.creators[c].phase.Done?)
  }

  ghost predicate SomeDeadlock(w: World) {
    exists sessions: set<nat>, creators: set<nat> :: sessions != {} && Deadlocked(w, sessions, creators)
  }

  predicate NoLocks(w: World) {
    && (forall s :: 0 <= s < |w.sessions| ==> !Locked(w.sessions[s]))
    && (forall c :: 0 <= c < |w.creators| ==> !w.creators[c].phase.Holding?)
  }

  lemma {:induction false} NobodyHolds(w: World)
    requires LockedSessions(w) == {} && HoldingCreators(w) == {}
    ensures NoLocks(w)
  {
    forall s | 0 <= s < |w.sessions|
      ensures !Locked(w.sessions[s])
    {
      assert s !in LockedSessions(w);
    }
    forall c | 0 <= c < |w.creators|
      ensures !w.creators[c].phase.Holding?
    {
      assert c !in HoldingCreators(w);
    }
  }

  /** Creations only wait for sessions. */
  lemma {:induction false} CreatorsAloneNeedNobody(w: World, creators: set<nat>)
    ensures creators != {} ==> !Deadlocked(w, {}, creators)
  {
    if c: nat :| c in creators {
      assert !CreatorNeeds(w, c, {});
    }
  }

  lemma {:induction false} HoldersEnd(w: World) returns (v: World)
    requires Invariant(w) && !SomeDeadlock(w)
    ensures Reaches(w, v) && Invariant(v) && NoLocks(v)
    decreases LockedSessions(w), HoldingCreators(w)
  {
    hide Invariant, Deadlocked, Reaches;
    if LockedSessions(w) == {} && HoldingCreators(w) == {} {
      ReachesSelf(w);
      v := w;
      NobodyHolds(w);
    } else {
      CreatorsAloneNeedNobody(w, HoldingCreators(w));
      var next, t := OneEnds(w);
      if SomeDeadlock(next) {
        var sessions: set<nat>, creators: set<nat> :| sessions != {} && Deadlocked(next, sessions, creators);
        assert |next.sessions| == |w.sessions|;
        DeadlockWasThere(w, next, t, sessions, creators);
      }
      hide Beside, NeedsNobody, SomeDeadlock;
      v := HoldersEnd(next);
      ReachesTrans(w, next, v);
    }
  }

  ghost function UnfinishedSessions(w: World): set<nat> {
    set i: nat | i < |w.sessions| && !w.sessions[i].phase.Ended?
  }

  ghost function UnfinishedCreators(w: World): set<nat> {
    set c: nat | c < |w.creators| && !w.creators[c].phase.Done?
  }

  lemma {:induction false} LockOfOne(w: World, s: nat)
    requires NoLocks(w) && s < |w.sessions| && w.sessions[s].phase.NoReceipt?
    ensures
      var v := Step(w, LockHorizon(s));
      Beside(w, v, s) && Locked(v.sessions[s]) && NeedsNobody(v, s)
  {
    hide WillLockEvent, HorizonOf;
  }

  /** A session that comes when no lock is held ends. */
  lemma {:induction false} EndArrival(w: World, s: nat) returns (v: World)
    requires Invariant(w) && NoLocks(w) && s < |w.sessions|
    requires w.sessions[s].phase.Started? || w.sessions[s].phase.NoReceipt?
    ensures Ends(w, v, s)
    decreases if w.sessions[s].phase.Started? then 1 else 0
  {
    if w.sessions[s].phase.NoReceipt? {
      var e := LockHorizon(s);
      LockOfOne(w, s);
      StepKeeps(w, e);
      hide Invariant, Step, Beside, NeedsNobody, Ends;
      v := EndUnhindered(Step(w, e), s);
      EndsAfter(w, e, v, s);
    } else {
      var e := LookForReceipt(s);
      LookForReceiptEnds(w.db, w.sessions[s]);
      assert Beside(w, Step(w, e), s) by {
        hide Invariant, WillLockEvent, LookForReceiptPhase;
      }
      StepKeeps(w, e);
      if Step(w, e).sessions[s].phase.Ended? {
        hide Invariant;
        EndsNow(w, e, s);
        v := Step(w, e);
      } else {
        hide Invariant, Beside, Ends;
        v := EndArrival(Step(w, e), s);
        EndsAfter(w, e, v, s);
      }
    }
  }

  lemma {:induction false} StillNoLocks(w: World, v: World, s: nat)
    requires NoLocks(w) && Ends(w, v, s)
    ensures NoLocks(v) && UnfinishedSessions(v) <= UnfinishedSessions(w) - {s}
  {
    hide Invariant, Reaches, WillLockEvent;
    forall i | 0 <= i < |v.sessions|
      ensures !Locked(v.sessions[i]) && (i in UnfinishedSessions(v) ==> i in UnfinishedSessions(w) && i != s)
    {
      assert i == s || SameOrEnded(w, v, i);
    }
  }

  lemma {:induction false} LocksKey(w: World, c: nat)
    requires NoLocks(w) && c < |w.creators| && w.creators[c].phase.Waiting?
    ensures
      var v := Step(w, LockKey(c));
      && v.sessions == w.sessions && |v.creators| == |w.creators| && !v.creators[c].phase.Waiting?
      && forall d :: 0 <= d < |w.creators| && d != c ==> v.creators[d] == w.creators[d]
  {
    hide EventBound;
  }

  lemma {:induction false} CreatorsLeft(w: World, v: World, c: nat)
    requires NoLocks(w) && c < |w.creators| == |v.creators| && w.creators[c].phase.Waiting? && v.sessions == w.sessions
    requires v.creators[c].phase.Done?
    requires forall d :: 0 <= d < |w.creators| && d != c ==>
      v.creators[d] == w.creators[d] || v.creators[d].phase.Done?
    ensures NoLocks(v) && UnfinishedCreators(v) < UnfinishedCreators(w)
  {
    assert c in UnfinishedCreators(w) && c !in UnfinishedCreators(v);
  }

  /** So does a creation. */
  lemma {:induction false} EndNewCreation(w: World, c: nat) returns (v: World)
    requires Invariant(w) && NoLocks(w) && c < |w.creators| && w.creators[c].phase.Waiting?
    ensures Reaches(w, v) && Invariant(v) && NoLocks(v) && v.sessions == w.sessions
    ensures UnfinishedCreators(v) < UnfinishedCreators(w)
  {
    var e := LockKey(c);
    var next := Step(w, e);
    StepKeeps(w, e);
    ReachesSelf(w);
    ReachesStep(w, w, e);
    LocksKey(w, c);
    hide Invariant, Step, Reaches;
    if next.creators[c].phase.Done? {
      v := next;
    } else {
      v := EndCreation(next, c);
      ReachesTrans(w, next, v);
      assert c in HoldingCreators(next);
      assert c !in HoldingCreators(v) by {
        assert HoldingCreators(next) <= {c};
      }
    }
    hide HoldingCreators, UnfinishedCreators;
    CreatorsLeft(w, v, c);
  }

  lemma {:induction false} ArrivalsEnd(w: World) returns (v: World)
    requires Invariant(w) && NoLocks(w)
    ensures Reaches(w, v) && AllFinished(v)
    decreases UnfinishedSessions(w), UnfinishedCreators(w)
  {
    hide Invariant, Reaches, Beside, Ends;
    if s: nat :| s < |w.sessions| && !w.sessions[s].phase.Ended? {
      var next := EndArrival(w, s);
      StillNoLocks(w, next, s);
      assert s in UnfinishedSessions(w);
      assert Reaches(w, next) && Invariant(next) by { EndsFacts(w, next, s); }
      v := ArrivalsEnd(next);
      ReachesTrans(w, next, v);
    } else if c: nat :| c < |w.creators| && !w.creators[c].phase.Done? {
      var next := EndNewCreation(w, c);
      v := ArrivalsEnd(next);
      ReachesTrans(w, next, v);
    } else {
      ReachesSelf(w);
      v := w;
    }
  }

  lemma {:induction false} EndsFacts(w: World, v: World, s: nat)
    requires Ends(w, v, s)
    ensures Reaches(w, v) && Invariant(v)
  {
    hide Reaches, Invariant;
  }

  /** All transactions can finish, without anybody being aborted, exactly when no set of them is deadlocked. */
  lemma {:induction false} AllFinishExactly(w: World)
    requires Invariant(w)
    ensures (exists v :: Reaches(w, v) && AllFinished(v)) <==> !SomeDeadlock(w)
  {
    hide Invariant, Deadlocked, Step;
    if SomeDeadlock(w) {
      var sessions: set<nat>, creators: set<nat> :| sessions != {} && Deadlocked(w, sessions, creators);
      forall v | Reaches(w, v)
        ensures !AllFinished(v)
      {
        var events :| AllStatements(events) && Run(w, events) == v;
        DeadlockStaysForever(w, events, sessions, creators);
        SomebodyUnfinished(v, sessions, creators);
      }
    } else {
      var u := HoldersEnd(w);
      var v := ArrivalsEnd(u);
      hide Reaches, AllFinished;
      ReachesTrans(w, u, v);
    }
  }

  lemma {:induction false} SomebodyUnfinished(w: World, sessions: set<nat>, creators: set<nat>)
    requires sessions != {} && Deadlocked(w, sessions, creators)
    ensures !AllFinished(w)
  {
    var s: nat :| s in sessions;
    MemberWaits(w, sessions, creators, s);
  }

  /** A creation that holds the key of a revalidation does not wait for a horizon itself. */
  ghost predicate Untangled(w: World) {
    forall s, c :: 0 <= s < |w.sessions| && 0 <= c < |w.creators| ==>
      WillLockEvent(w.db, w.sessions[s]) && CreatorHolds(w.creators[c], w.sessions[s].plan.key) ==>
        HorizonFree(w, w.creators[c].horizon)
  }

  /** In particular nobody waits forever unless an ordinary creation holds the very event key that a revalidation is
      about to lock, and waits for a horizon itself. */
  lemma {:induction false} NoDeadlock(w: World)
    requires Invariant(w) && Untangled(w)
    ensures exists v :: Reaches(w, v) && AllFinished(v)
  {
    AllFinishExactly(w);
    hide Invariant, Reaches, AllFinished;
    if SomeDeadlock(w) {
      var sessions: set<nat>, creators: set<nat> :| sessions != {} && Deadlocked(w, sessions, creators);
      var _, _ := TangledPair(w, sessions, creators);
    }
  }

  /** Who holds rows does not wait for rows. */
  lemma {:induction false} SomeRowsFree(w: World, sessions: set<nat>, creators: set<nat>) returns (s: nat)
    requires sessions != {} && Deadlocked(w, sessions, creators)
    ensures s in sessions && s < |w.sessions| && NeedsKey(w, s, sessions, creators)
  {
    hide WillLockEvent;
    s :| s in sessions;
    assert SessionNeeds(w, s, sessions, creators);
    if !NeedsKey(w, s, sessions, creators) {
      var u: nat :| u in sessions && u < |w.sessions| && HoldsRows(w.sessions[u], w.sessions[s].plan.cycle);
      s := u;
      assert SessionNeeds(w, s, sessions, creators);
    }
  }

  /** Every deadlock holds a revalidation and the creation that keeps its event key while it waits for a horizon. */
  lemma {:induction false} TangledPair(w: World, sessions: set<nat>, creators: set<nat>) returns (s: nat, c: nat)
    requires sessions != {} && Deadlocked(w, sessions, creators)
    ensures s in sessions && s < |w.sessions| && WillLockEvent(w.db, w.sessions[s])
    ensures c in creators && c < |w.creators| && CreatorHolds(w.creators[c], w.sessions[s].plan.key)
    ensures !HorizonFree(w, w.creators[c].horizon)
  {
    s := SomeRowsFree(w, sessions, creators);
    hide WillLockEvent;
    forall u | u in sessions && u < |w.sessions|
      ensures !HoldsKey(w.sessions[u], w.sessions[s].plan.key)
    {
      MemberWaits(w, sessions, creators, u);
    }
    c :| c in creators && c < |w.creators| && CreatorHolds(w.creators[c], w.sessions[s].plan.key);
    assert CreatorNeeds(w, c, sessions);
  }

  // ----- deadlocks arise -----

  /** The sessions of a deadlock have all verified. */
  predicate AllVerified(w: World, sessions: set<nat>) {
    forall s :: s in sessions ==> s < |w.sessions| && WillWait(w.sessions[s])
  }

  predicate Spared(e: Event, sessions: set<nat>, creators: set<nat>) {
    (e.Abort? ==> e.s !in sessions) && (e.GiveUp? ==> e.c !in creators)
  }

  lemma {:induction false} HeldSession(w: World, e: Event, s: nat)
    requires s < |w.sessions| && WillWait(w.sessions[s]) && Waits(w, s) && e != Abort(s)
    ensures s < |Step(w, e).sessions| && Step(w, e).sessions[s] == w.sessions[s]
  {
    hide PlanHolds, HorizonFree, RowsFree, KeyFree, HorizonOf, LookForReceiptPhase, WritePhase, CanTake;
    hide EventBound, Owned, ManualOn, Overwrites, Reserved, Commit;
  }

  lemma {:induction false} HeldCreator(w: World, e: Event, c: nat)
    requires c < |w.creators| && w.creators[c].phase.Holding? && !HorizonFree(w, w.creators[c].horizon)
    requires e != GiveUp(c)
    ensures c < |Step(w, e).creators| && Step(w, e).creators[c] == w.creators[c]
  {
    hide PlanHolds, HorizonFree, RowsFree, KeyFree, HorizonOf, LookForReceiptPhase, WritePhase, CanWrite;
    hide EventBound, Owned, ManualOn, Overwrites, Reserved, Commit;
  }

  lemma {:induction false} HeldStep(w: World, e: Event, sessions: set<nat>, creators: set<nat>)
    requires Deadlocked(w, sessions, creators) && AllVerified(w, sessions) && Spared(e, sessions, creators)
    ensures forall s :: s in sessions ==> s < |Step(w, e).sessions| && Step(w, e).sessions[s] == w.sessions[s]
    ensures forall c :: c in creators ==>
      c < |w.creators| && c < |Step(w, e).creators| && Step(w, e).creators[c] == w.creators[c]
  {
    hide Step, Waits;
    forall s | s in sessions
      ensures s < |Step(w, e).sessions| && Step(w, e).sessions[s] == w.sessions[s]
    {
      MemberWaits(w, sessions, creators, s);
      HeldSession(w, e, s);
    }
    forall c | c in creators
      ensures c < |w.creators| && c < |Step(w, e).creators| && Step(w, e).creators[c] == w.creators[c]
    {
      assert CreatorNeeds(w, c, sessions);
      HeldCreator(w, e, c);
    }
  }

  lemma {:induction false} SameMembers(w: World, v: World, sessions: set<nat>, creators: set<nat>)
    requires Deadlocked(w, sessions, creators) && AllVerified(w, sessions)
    requires forall s :: s in sessions ==> s < |v.sessions| && v.sessions[s] == w.sessions[s]
    requires forall c :: c in creators ==> c < |w.creators| && c < |v.creators| && v.creators[c] == w.creators[c]
    ensures Deadlocked(v, sessions, creators) && AllVerified(v, sessions)
  {
    forall s | s in sessions
      ensures SessionNeeds(v, s, sessions, creators)
    {
      assert SessionNeeds(w, s, sessions, creators);
      assert NeedsKey(v, s, sessions, creators);
    }
    forall c | c in creators
      ensures CreatorNeeds(v, c, sessions)
    {
      assert CreatorNeeds(w, c, sessions);
    }
  }

  /** Verified revalidations and creations in a deadlock stay where they are, whatever anybody else does, operators,
      creators and the platform, until one of them is aborted. */
  lemma {:induction false} HeldForever(w: World, events: seq<Event>, sessions: set<nat>, creators: set<nat>)
    requires Deadlocked(w, sessions, creators) && AllVerified(w, sessions)
    requires forall k :: 0 <= k < |events| ==> Spared(events[k], sessions, creators)
    ensures Deadlocked(Run(w, events), sessions, creators) && AllVerified(Run(w, events), sessions)
    ensures forall s :: s in sessions ==>
      s < |w.sessions| && s < |Run(w, events).sessions| && Run(w, events).sessions[s] == w.sessions[s]
    ensures forall c :: c in creators ==>
      c < |w.creators| && c < |Run(w, events).creators| && Run(w, events).creators[c] == w.creators[c]
  {
    hide Step, Spared;
    if events == [] {
      assert forall c :: c in creators ==> CreatorNeeds(w, c, sessions);
    } else {
      var before := events[..|events| - 1];
      HeldForever(w, before, sessions, creators);
      assert Spared(events[|events| - 1], sessions, creators);
      HeldStep(Run(w, before), events[|events| - 1], sessions, creators);
      SameMembers(Run(w, before), Run(w, events), sessions, creators);
    }
    hide Deadlocked;
  }

  /** The four statements that verify a plan. */
  function Verifying(s: nat): seq<Event> {
    [LookForReceipt(s), LockHorizon(s), LockRows(s), Verify(s)]
  }

  /** An ordinary creation asks for the event of a plan. */
  function Asks(p: Plan, horizon: nat): Event {
    SpawnCreator(Request(p.key, 0, 0), horizon)
  }

  lemma {:induction false} AskedAndLocked(w: World, p: Plan, horizon: nat)
    requires KeyFree(w, p.key) && !EventBound(w.db, p.key)
    ensures Step(Step(w, Asks(p, horizon)), LockKey(|w.creators|))
         == w.(creators := w.creators + [Creator(Request(p.key, 0, 0), horizon, Holding)])
  {
    var asked := Step(w, Asks(p, horizon));
    assert KeyFree(asked, p.key);
    hide KeyFree, EventBound;
    assert asked.creators[|w.creators| := asked.creators[|w.creators|].(phase := Holding)]
        == w.creators + [Creator(Request(p.key, 0, 0), horizon, Holding)];
  }

  /** Every revalidation that could commit under an unused key can be driven into a deadlock: its key only has to be
      asked for on its horizon by an ordinary creation meanwhile. */
  lemma {:induction false} DeadlockCanArise(w: World, s: nat, target: nat)
    requires s < |w.sessions| && Uncontested(w, s, target)
    requires w.sessions[s].plan.kind == Revalidation && !EventBound(w.db, w.sessions[s].plan.key)
    ensures
      var p := w.sessions[s].plan;
      var v := Run(w, Verifying(s) + [Asks(p, p.horizon), LockKey(|w.creators|)]);
      Deadlocked(v, {s}, {|w.creators|}) && AllVerified(v, {s})
  {
    var p, c := w.sessions[s].plan, |w.creators|;
    var verified := Put(w, s, Verified(p.horizon));
    RunToVerified(w, s, target);
    assert KeyFree(w, p.key) ==> KeyFree(verified, p.key);
    AskedAndLocked(verified, p, p.horizon);
    RunAppend(w, Verifying(s), Asks(p, p.horizon));
    RunAppend(w, Verifying(s) + [Asks(p, p.horizon)], LockKey(c));
    assert Verifying(s) + [Asks(p, p.horizon)] + [LockKey(c)] == Verifying(s) + [Asks(p, p.horizon), LockKey(c)];
    hide Run, Step, Uncontested, KeyFree, EventBound;
    var v := Run(w, Verifying(s) + [Asks(p, p.horizon), LockKey(c)]);
    assert v == verified.(creators := verified.creators + [Creator(Request(p.key, 0, 0), p.horizon, Holding)]);
    assert CreatorHolds(v.creators[c], p.key) && HoldsHorizon(v.sessions[s], p.horizon);
    assert SessionNeeds(v, s, {s}, {c}) && CreatorNeeds(v, c, {s});
  }

  /** Two plans that need no common lock. */
  predicate Apart(p: Plan, q: Plan) {
    && p.kind == Revalidation && q.kind == Revalidation
    && p.cycle != q.cycle && p.horizon != q.horizon && p.key != q.key
  }

  lemma {:induction false} StillUncontested(w: World, s: nat, t: nat, target: nat)
    requires s < |w.sessions| && t < |w.sessions| && s != t && w.sessions[s].phase.Started?
    requires Apart(w.sessions[s].plan, w.sessions[t].plan)
    requires Uncontested(w, t, target) && !EventBound(w.db, w.sessions[t].plan.key)
    ensures Uncontested(Put(w, s, Verified(w.sessions[s].plan.horizon)), t, target)
  {
    hide PlanHolds, EventBound, Owned;
    var v := Put(w, s, Verified(w.sessions[s].plan.horizon));
    assert Reserved(v, target) ==> Reserved(w, target);
  }

  /** What closes a ring: each plan's key is asked for on the horizon of the other plan. */
  function Ring(w: World, p: Plan, q: Plan): seq<Event> {
    [Asks(p, q.horizon), LockKey(|w.creators|), Asks(q, p.horizon), LockKey(|w.creators| + 1)]
  }

  lemma {:induction false} RunFour(w: World, a: Event, b: Event, c: Event, d: Event)
    ensures Run(w, [a, b, c, d]) == Step(Step(Step(Step(w, a), b), c), d)
  {
    hide Step;
    assert Run(w, []) == w;
    RunAppend(w, [], a);
    RunAppend(w, [a], b);
    RunAppend(w, [a, b], c);
    RunAppend(w, [a, b, c], d);
    assert [] + [a] == [a] && [a] + [b] == [a, b] && [a, b] + [c] == [a, b, c] && [a, b, c] + [d] == [a, b, c, d];
  }

  lemma {:induction false} RunConcat(w: World, a: seq<Event>, b: seq<Event>)
    ensures Run(w, a + b) == Run(Run(w, a), b)
    decreases |b|
  {
    hide Step;
    if b == [] {
      assert a + b == a;
    } else {
      RunConcat(w, a, b[..|b| - 1]);
      assert (a + b)[..|a + b| - 1] == a + b[..|b| - 1];
    }
  }

  /** The world after both plans are verified and both creations hold their keys. */
  function RingWorld(w: World, s: nat, t: nat): World
    requires s < |w.sessions| && t < |w.sessions|
  {
    var p, q := w.sessions[s].plan, w.sessions[t].plan;
    var v := Put(Put(w, s, Verified(p.horizon)), t, Verified(q.horizon));
    v.(creators := v.creators + [Creator(Request(p.key, 0, 0), q.horizon, Holding),
                                 Creator(Request(q.key, 0, 0), p.horizon, Holding)])
  }

  lemma {:induction false} RingRuns(w: World, s: nat, t: nat, target: nat, other: nat)
    requires s < |w.sessions| && t < |w.sessions| && s != t && Apart(w.sessions[s].plan, w.sessions[t].plan)
    requires Uncontested(w, s, target) && !EventBound(w.db, w.sessions[s].plan.key)
    requires Uncontested(w, t, other) && !EventBound(w.db, w.sessions[t].plan.key)
    ensures Run(w, Verifying(s) + Verifying(t) + Ring(w, w.sessions[s].plan, w.sessions[t].plan)) == RingWorld(w, s, t)
  {
    var p, q := w.sessions[s].plan, w.sessions[t].plan;
    var one := Put(w, s, Verified(p.horizon));
    var both := Put(one, t, Verified(q.horizon));
    RunToVerified(w, s, target);
    StillUncontested(w, s, t, other);
    RunToVerified(one, t, other);
    RunConcat(w, Verifying(s), Verifying(t));
    RunConcat(w, Verifying(s) + Verifying(t), Ring(w, p, q));
    assert KeyFree(both, p.key) && KeyFree(both, q.key) by {
      assert KeyFree(w, p.key) && KeyFree(w, q.key);
    }
    hide Run, Step, Uncontested, EventBound, KeyFree;
    RingCloses(w, both, s, t);
  }

  lemma {:induction false} RingCloses(w: World, both: World, s: nat, t: nat)
    requires s < |w.sessions| && t < |w.sessions| && Apart(w.sessions[s].plan, w.sessions[t].plan)
    requires both == Put(Put(w, s, Verified(w.sessions[s].plan.horizon)), t, Verified(w.sessions[t].plan.horizon))
    requires KeyFree(both, w.sessions[s].plan.key) && !EventBound(both.db, w.sessions[s].plan.key)
    requires KeyFree(both, w.sessions[t].plan.key) && !EventBound(both.db, w.sessions[t].plan.key)
    ensures Run(both, Ring(w, w.sessions[s].plan, w.sessions[t].plan)) == RingWorld(w, s, t)
  {
    var p, q := w.sessions[s].plan, w.sessions[t].plan;
    hide Run, Step, EventBound;
    RunFour(both, Asks(p, q.horizon), LockKey(|w.creators|), Asks(q, p.horizon), LockKey(|w.creators| + 1));
    AskedAndLocked(both, p, q.horizon);
    var first := both.(creators := both.creators + [Creator(Request(p.key, 0, 0), q.horizon, Holding)]);
    assert KeyFree(first, q.key);
    hide KeyFree;
    AskedAndLocked(first, q, p.horizon);
    assert first.creators + [Creator(Request(q.key, 0, 0), p.horizon, Holding)] == RingWorld(w, s, t).creators;
  }

  /** Nor need the two share a horizon: two revalidations that could both commit, and two creations that each ask for
      the key of one on the horizon of the other, can wait in a ring of four, in which no session and creation are
      deadlocked on their own. */
  lemma {:induction false} RingCanArise(w: World, s: nat, t: nat, target: nat, other: nat)
    requires s < |w.sessions| && t < |w.sessions| && s != t && Apart(w.sessions[s].plan, w.sessions[t].plan)
    requires Uncontested(w, s, target) && !EventBound(w.db, w.sessions[s].plan.key)
    requires Uncontested(w, t, other) && !EventBound(w.db, w.sessions[t].plan.key)
    ensures
      var v := Run(w, Verifying(s) + Verifying(t) + Ring(w, w.sessions[s].plan, w.sessions[t].plan));
      var n := |w.creators|;
      && Deadlocked(v, {s, t}, {n, n + 1}) && AllVerified(v, {s, t})
      && forall c :: !Deadlocked(v, {s}, {c}) && !Deadlocked(v, {t}, {c})
  {
    RingRuns(w, s, t, target, other);
    assert KeyFree(w, w.sessions[s].plan.key) && KeyFree(w, w.sessions[t].plan.key);
    hide Run, Uncontested, EventBound, RingWorld, KeyFree, Deadlocked;
    RingIsDeadlocked(w, s, t);
    forall c
      ensures !Deadlocked(RingWorld(w, s, t), {s}, {c}) && !Deadlocked(RingWorld(w, s, t), {t}, {c})
    {
      NoPair(w, s, t, c);
    }
  }

  lemma {:induction false} RingIsDeadlocked(w: World, s: nat, t: nat)
    requires s < |w.sessions| && t < |w.sessions| && s != t && Apart(w.sessions[s].plan, w.sessions[t].plan)
    ensures Deadlocked(RingWorld(w, s, t), {s, t}, {|w.creators|, |w.creators| + 1})
    ensures AllVerified(RingWorld(w, s, t), {s, t})
  {
    var p, q, n, v := w.sessions[s].plan, w.sessions[t].plan, |w.creators|, RingWorld(w, s, t);
    assert v.creators[n].request.key == p.key && v.creators[n].horizon == q.horizon;
    assert v.creators[n + 1].request.key == q.key && v.creators[n + 1].horizon == p.horizon;
    assert v.sessions[s].plan == p && v.sessions[s].phase == Verified(p.horizon);
    assert v.sessions[t].plan == q && v.sessions[t].phase == Verified(q.horizon);
    hide RingWorld, PlanHolds;
    assert SessionNeeds(v, s, {s, t}, {n, n + 1}) by {
      assert CreatorHolds(v.creators[n], p.key);
    }
    assert SessionNeeds(v, t, {s, t}, {n, n + 1}) by {
      assert CreatorHolds(v.creators[n + 1], q.key);
    }
    assert CreatorNeeds(v, n, {s, t}) && CreatorNeeds(v, n + 1, {s, t}) by {
      assert HoldsHorizon(v.sessions[s], p.horizon) && HoldsHorizon(v.sessions[t], q.horizon);
    }
  }

  lemma {:induction false} NoPair(w: World, s: nat, t: nat, c: nat)
    requires s < |w.sessions| && t < |w.sessions| && s != t && Apart(w.sessions[s].plan, w.sessions[t].plan)
    requires KeyFree(w, w.sessions[s].plan.key) && KeyFree(w, w.sessions[t].plan.key)
    ensures !Deadlocked(RingWorld(w, s, t), {s}, {c}) && !Deadlocked(RingWorld(w, s, t), {t}, {c})
  {
    var p, q, n, v := w.sessions[s].plan, w.sessions[t].plan, |w.creators|, RingWorld(w, s, t);
    assert c < n ==> v.creators[c] == w.creators[c];
    assert c == n ==> v.creators[c].request.key == p.key && v.creators[c].horizon == q.horizon;
    assert c == n + 1 ==> v.creators[c].request.key == q.key && v.creators[c].horizon == p.horizon;
    assert v.sessions[s].plan == p && v.sessions[s].phase == Verified(p.horizon);
    assert v.sessions[t].plan == q && v.sessions[t].phase == Verified(q.horizon);
    hide RingWorld, PlanHolds;
    assert !(SessionNeeds(v, s, {s}, {c}) && CreatorNeeds(v, c, {s}));
    assert !(SessionNeeds(v, t, {t}, {c}) && CreatorNeeds(v, c, {t}));
  }
}
