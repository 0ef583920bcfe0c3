/** What every step of the operators, of the creators of research events and of the platform keeps. */
module OperatorTransactions {
  import opened Values
  import opened OperatorSteps

  // ----- the invariant -----

  /** No lock has two holders. */
  ghost predicate Exclusive(w: World) {
    HorizonsExclusive(w) && RowsExclusive(w) && KeysExclusive(w)
  }

  ghost predicate HorizonsExclusive(w: World) {
    forall i, j, h: nat :: 0 <= i < j < |w.sessions| && HoldsHorizon(w.sessions[i], h) ==>
      !HoldsHorizon(w.sessions[j], h)
  }

  ghost predicate RowsExclusive(w: World) {
    forall i, j, c: nat :: 0 <= i < j < |w.sessions| && HoldsRows(w.sessions[i], c) ==> !HoldsRows(w.sessions[j], c)
  }

  ghost predicate KeysExclusive(w: World) {
    && (forall i, j, k: nat :: 0 <= i < j < |w.sessions| && HoldsKey(w.sessions[i], k) ==> !HoldsKey(w.sessions[j], k))
    && (forall i, j, k: nat :: 0 <= i < |w.sessions| && 0 <= j < |w.creators| && HoldsKey(w.sessions[i], k) ==>
          !CreatorHolds(w.creators[j], k))
    && (forall i, j, k: nat :: 0 <= i < j < |w.creators| && CreatorHolds(w.creators[i], k) ==>
          !CreatorHolds(w.creators[j], k))
  }

  predicate Sure(s: Session) {
    s.phase.Verified? || s.phase.EventLocked? || s.phase.Written?
  }

  /** A session holds the horizon of its own cycle, and only revalidations lock an event. */
  predicate WellLocked(db: Database, s: Session) {
    && (s.plan.kind == Revalidation && (s.phase.NoReceipt? || Locked(s)) ==> s.plan.cycle in db.cycles)
    && (Locked(s) ==> s.phase.horizon == HorizonOf(db, s.plan))
    && (s.phase.EventLocked? ==> s.plan.kind == Revalidation)
  }

  /** What a session verified is still so: nobody else can touch the rows it has locked. */
  ghost predicate StillVerified(db: Database, s: Session) {
    && WellLocked(db, s)
    && (Sure(s) ==> s.plan.cycle in db.cycles && RowMatches(db.cycles[s.plan.cycle], s.plan)
                    && s.plan.release == s.release)
    && (s.phase.Written? ==> ReadyToCommit(db, s.plan, s.phase.receipt, s.phase.successor, s.phase.row, s.phase.added))
  }

  ghost predicate ReadyToCommit(db: Database, p: Plan, receipt: Receipt, successor: nat, row: Cycle, added: bool) {
    && receipt.plan == p && receipt.cycle == successor && receipt.added == added
    && row.status == Active && row.joint && row.registered
    && (added <==> successor !in db.cycles)
    && match p.kind
       case Recovery => successor == p.cycle && Rewrites(db, successor, row) && row.recoveredBy == Some(p)
                        && row.importedBy == db.cycles[p.cycle].importedBy
       case Revalidation => p.cycle in db.cycles && SameRequest(row, db.cycles[p.cycle], p) && row.importedBy == Some(p)
                            && if added then row.recoveredBy == None && !EventBound(db, p.key)
                               else Rewrites(db, successor, row)
                                    && Reusable(db.cycles[successor], db.cycles[p.cycle], p)
                                    && row.recoveredBy == db.cycles[successor].recoveredBy
  }

  /** A rewritten cycle keeps its horizon and its event. */
  predicate Rewrites(db: Database, cycle: nat, row: Cycle) {
    cycle in db.cycles && row.horizon == db.cycles[cycle].horizon && row.event == db.cycles[cycle].event
  }

  ghost predicate AllStillVerified(w: World) {
    forall i :: 0 <= i < |w.sessions| ==> StillVerified(w.db, w.sessions[i])
  }

  /** A creator that holds an event key found it unbound. */
  ghost predicate CreatorsReady(w: World) {
    forall i :: 0 <= i < |w.creators| && w.creators[i].phase.Holding? ==> !EventBound(w.db, w.creators[i].request.key)
  }

  /** Different transactions never write the same cycle. */
  ghost predicate DistinctSuccessors(w: World) {
    forall i, j :: 0 <= i < j < |w.sessions| && w.sessions[i].phase.Written? && w.sessions[j].phase.Written? ==>
      w.sessions[i].phase.successor != w.sessions[j].phase.successor
  }

  /** What a recorded plan has left for good: the cycle it wrote has its joint branch and its registered candidates.
      The mark in the state of that cycle may be overwritten, except in a successor that the plan added. */
  ghost predicate Stands(db: Database, p: Plan)
    requires p in db.audits
  {
    var r := db.audits[p];
    && r.plan == p && r.cycle in db.cycles && db.cycles[r.cycle].joint && db.cycles[r.cycle].registered
    && match p.kind
       case Recovery => r.cycle == p.cycle && !r.added
       case Revalidation =>
         && r.cycle != p.cycle && HasKey(db.cycles[r.cycle], p.key)
         && (r.added ==> db.cycles[r.cycle].importedBy == Some(p))
  }

  /** The marks of a cycle name plans that were recorded for it. */
  ghost predicate MarksRecorded(db: Database, c: nat, row: Cycle) {
    && (row.recoveredBy.Some? ==>
          && row.recoveredBy.value in db.audits && row.recoveredBy.value.kind == Recovery
          && row.recoveredBy.value.cycle == c)
    && (row.importedBy.Some? ==> row.importedBy.value in db.audits && ImportedInto(db, row.importedBy.value, c))
  }

  /** No two plans of a kind were recorded for writing one cycle. */
  ghost predicate OneRecord(audits: map<Plan, Receipt>) {
    forall p, q :: p in audits && q in audits && p.kind == q.kind && audits[p].cycle == audits[q].cycle ==> p == q
  }

  ghost predicate Recorded(db: Database) {
    && (forall p :: p in db.audits ==> Stands(db, p))
    && (forall c :: c in db.cycles ==> MarksRecorded(db, c, db.cycles[c]))
    && OneRecord(db.audits)
  }

  /** No two cycles bear the same event key. */
  ghost predicate KeysUnique(db: Database) {
    forall c, d, key: nat ::
      c in db.cycles && d in db.cycles && HasKey(db.cycles[c], key) && HasKey(db.cycles[d], key) ==> c == d
  }

  ghost predicate Sound(db: Database) {
    Recorded(db) && KeysUnique(db)
  }

  ghost predicate Invariant(w: World) {
    Exclusive(w) && AllStillVerified(w) && CreatorsReady(w) && DistinctSuccessors(w) && Sound(w.db)
  }

  // ----- sessions that take no new lock -----

  lemma {:induction false} LetGo(w: World, s: nat, phase: Phase)
    requires Invariant(w) && s < |w.sessions|
    requires phase.Ended? || phase.NoReceipt?
    requires phase.NoReceipt? && w.sessions[s].plan.kind == Revalidation ==> w.sessions[s].plan.cycle in w.db.cycles
    ensures Invariant(Put(w, s, phase))
  {
    hide Sound, RowMatches, NoSuccessor, ReadyToCommit, HorizonOf, EventBound;
  }

  lemma {:induction false} SpawnKeeps(w: World, plan: Plan, mode: Mode, release: nat)
    requires Invariant(w)
    ensures Invariant(Step(w, Spawn(plan, mode, release)))
  {
    hide Sound, RowMatches, NoSuccessor, ReadyToCommit, HorizonOf, EventBound;
  }

  // ----- taking a lock -----

  lemma {:induction false} LockHorizonKeeps(w: World, s: nat)
    requires Invariant(w) && s < |w.sessions| && w.sessions[s].phase.NoReceipt?
    requires HorizonFree(w, HorizonOf(w.db, w.sessions[s].plan))
    ensures Invariant(Put(w, s, HorizonLocked(HorizonOf(w.db, w.sessions[s].plan))))
  {
    hide Sound, RowMatches, NoSuccessor, ReadyToCommit, HorizonOf, EventBound;
  }

  lemma {:induction false} LockRowsKeeps(w: World, s: nat)
    requires Invariant(w) && s < |w.sessions| && w.sessions[s].phase.HorizonLocked?
    requires RowsFree(w, w.sessions[s].plan.cycle)
    ensures Invariant(Put(w, s, RowsLocked(w.sessions[s].phase.horizon)))
  {
    hide Sound, RowMatches, NoSuccessor, ReadyToCommit, HorizonOf, EventBound;
  }

  lemma {:induction false} VerifyKeeps(w: World, s: nat)
    requires Invariant(w) && s < |w.sessions| && w.sessions[s].phase.RowsLocked?
    requires PlanHolds(w.db, w.sessions[s].plan, w.sessions[s].release)
    ensures Invariant(Put(w, s, Verified(w.sessions[s].phase.horizon)))
  {
    hide Sound, RowMatches, NoSuccessor, ReadyToCommit, HorizonOf, EventBound;
  }

  lemma {:induction false} LockEventKeeps(w: World, s: nat)
    requires Invariant(w) && s < |w.sessions| && w.sessions[s].phase.Verified?
    requires w.sessions[s].plan.kind == Revalidation && KeyFree(w, w.sessions[s].plan.key)
    ensures Invariant(Put(w, s, EventLocked(w.sessions[s].phase.horizon)))
  {
    hide Sound, RowMatches, NoSuccessor, ReadyToCommit, HorizonOf, EventBound;
  }

  // ----- writing under the locks -----

  predicate MayWrite(s: Session) {
    if s.plan.kind == Recovery then s.phase.Verified? else s.phase.EventLocked?
  }

  /** A new cycle is not written by anyone else, and the rows of a rewritten one are locked. */
  ghost predicate TargetFree(w: World, s: nat, successor: nat, added: bool)
    requires s < |w.sessions|
  {
    if added then !Reserved(w, successor) else RowsFreeFor(w, s, successor)
  }

  lemma {:induction false} WriteKeeps(w: World, s: nat, receipt: Receipt, successor: nat, row: Cycle, added: bool)
    requires Invariant(w) && s < |w.sessions| && MayWrite(w.sessions[s])
    requires ReadyToCommit(w.db, w.sessions[s].plan, receipt, successor, row, added)
    requires TargetFree(w, s, successor, added)
    ensures Invariant(Put(w, s, Written(w.sessions[s].phase.horizon, receipt, successor, row, added)))
  {
    var after := Put(w, s, Written(w.sessions[s].phase.horizon, receipt, successor, row, added));
    assert Exclusive(after) by {
      hide AllStillVerified, Sound, ReadyToCommit;
    }
    assert AllStillVerified(after) && CreatorsReady(after) by {
      hide Exclusive, Sound, RowMatches, NoSuccessor, ReadyToCommit, EventBound, HorizonOf;
    }
    forall j | 0 <= j < |w.sessions| && j != s && w.sessions[j].phase.Written?
      ensures w.sessions[j].phase.successor != successor
    {
      assert StillVerified(w.db, w.sessions[j]);
      SuccessorsDiffer(w, s, j, receipt, successor, row, added);
    }
    hide Sound, RowMatches, NoSuccessor, ReadyToCommit, AllStillVerified, CreatorsReady, Exclusive;
  }

  lemma {:induction false} SuccessorsDiffer(w: World, s: nat, j: nat, receipt: Receipt, successor: nat, row: Cycle,
                                            added: bool)
    requires s < |w.sessions| && j < |w.sessions| && j != s && w.sessions[j].phase.Written?
    requires StillVerified(w.db, w.sessions[j])
    requires ReadyToCommit(w.db, w.sessions[s].plan, receipt, successor, row, added)
    requires TargetFree(w, s, successor, added)
    ensures w.sessions[j].phase.successor != successor
  {
    assert !HoldsRows(w.sessions[j], successor) || added;
  }

  // ----- committing -----

  /** Nothing was ever recorded for writing the cycle. */
  ghost predicate Unrecorded(db: Database, cycle: nat) {
    forall q :: q in db.audits ==> db.audits[q].cycle != cycle
  }

  /** An activity without joint branch or without registered candidates has taken no commit, hence bears no mark. */
  lemma {:induction false} NothingRecorded(db: Database, cycle: nat)
    requires Recorded(db) && (cycle !in db.cycles || !db.cycles[cycle].joint || !db.cycles[cycle].registered)
    ensures Unrecorded(db, cycle)
    ensures cycle in db.cycles ==> db.cycles[cycle].recoveredBy.None? && db.cycles[cycle].importedBy.None?
  {
    forall q | q in db.audits
      ensures db.audits[q].cycle != cycle
    {
      assert Stands(db, q);
    }
    if cycle in db.cycles {
      assert MarksRecorded(db, cycle, db.cycles[cycle]);
      assert forall q :: q in db.audits && q.kind == Recovery ==> Stands(db, q);
    }
  }

  /** Writing one cycle and recording the plan for it. */
  lemma {:induction false} RecordKeeps(db: Database, p: Plan, receipt: Receipt, row: Cycle)
    requires Recorded(db) && p !in db.audits && Unrecorded(db, receipt.cycle)
    requires Stands(Database(db.cycles[receipt.cycle := row], db.audits[p := receipt]), p)
    requires MarksRecorded(Database(db.cycles[receipt.cycle := row], db.audits[p := receipt]), receipt.cycle, row)
    ensures Recorded(Database(db.cycles[receipt.cycle := row], db.audits[p := receipt]))
  {
    var after := Database(db.cycles[receipt.cycle := row], db.audits[p := receipt]);
    forall q | q in after.audits
      ensures Stands(after, q)
    {
      if q != p {
        assert Stands(db, q);
      }
    }
    forall c | c in after.cycles
      ensures MarksRecorded(after, c, after.cycles[c])
    {
      if c != receipt.cycle {
        assert MarksRecorded(db, c, db.cycles[c]);
      }
    }
    hide Stands, MarksRecorded;
  }

  /** A cycle that is rewritten keeps its key, and a new one brings a key that was unbound. */
  lemma {:induction false} KeysStayUnique(db: Database, cycle: nat, row: Cycle)
    requires KeysUnique(db)
    requires if cycle in db.cycles then row.event == db.cycles[cycle].event
      else row.event.None? || !EventBound(db, row.event.value.key)
    ensures KeysUnique(db.(cycles := db.cycles[cycle := row]))
  {
  }

  ghost predicate NoImporter(db: Database, source: nat) {
    forall d :: d in db.cycles ==> !Imports(db.cycles[d], source)
  }

  /** What is ready to commit was never recorded: a recovered cycle has its candidates, and the key of an import stays
      bound to an activity that has its joint branch. */
  lemma {:induction false} NotYetRecorded(db: Database, p: Plan, receipt: Receipt, row: Cycle)
    requires Sound(db) && p.cycle in db.cycles && RowMatches(db.cycles[p.cycle], p)
    requires ReadyToCommit(db, p, receipt, receipt.cycle, row, receipt.added)
    ensures p !in db.audits && Unrecorded(db, receipt.cycle)
    ensures receipt.cycle in db.cycles ==>
      db.cycles[receipt.cycle].recoveredBy.None? && db.cycles[receipt.cycle].importedBy.None?
  {
    NothingRecorded(db, receipt.cycle);
    assert p in db.audits ==> Stands(db, p);
  }

  lemma {:induction false} CommitKeepsSound(db: Database, p: Plan, receipt: Receipt, row: Cycle)
    requires Sound(db) && p.cycle in db.cycles && RowMatches(db.cycles[p.cycle], p)
    requires ReadyToCommit(db, p, receipt, receipt.cycle, row, receipt.added)
    ensures Sound(Database(db.cycles[receipt.cycle := row], db.audits[p := receipt])) && p !in db.audits
  {
    NotYetRecorded(db, p, receipt, row);
    hide Recorded, RowMatches;
    RecordKeeps(db, p, receipt, row);
    KeysStayUnique(db, receipt.cycle, row);
    hide ReadyToCommit, Stands, MarksRecorded;
    var after := db.(cycles := db.cycles[receipt.cycle := row]);
    assert KeysUnique(after) ==> KeysUnique(Database(after.cycles, db.audits[p := receipt]));
  }

  /** A commit leaves what every other session has verified untouched. */
  lemma {:induction false} CommitSparesOthers(w: World, s: nat, j: nat)
    requires Invariant(w) && s < |w.sessions| && j < |w.sessions| && j != s && w.sessions[s].phase.Written?
    ensures StillVerified(Commit(w.db, w.sessions[s]), w.sessions[j])
  {
    var a, b := w.sessions[s], w.sessions[j];
    var after := Commit(w.db, a);
    hide Sound, CreatorsReady;
    assert StillVerified(w.db, a) && StillVerified(w.db, b);
    assert HoldsRows(a, a.plan.cycle) && (!a.phase.added ==> HoldsRows(a, a.phase.successor));
    KeepsHorizons(w.db, a);
    assert WellLocked(after, b) by {
      hide ReadyToCommit, RowMatches, NoSuccessor, Exclusive, DistinctSuccessors;
    }
    if Sure(b) {
      assert HoldsRows(b, b.plan.cycle);
      assert a.phase.successor != b.plan.cycle && a.plan.cycle != b.plan.cycle;
      assert after.cycles[b.plan.cycle] == w.db.cycles[b.plan.cycle];
      if b.phase.Written? {
        CommitSparesWritten(w, s, j);
      }
    }
    hide ReadyToCommit, RowMatches, NoSuccessor, Exclusive, DistinctSuccessors;
  }

  /** Cycles stay, and keep their horizon. */
  lemma {:induction false} KeepsHorizons(db: Database, s: Session)
    requires s.phase.Written? && StillVerified(db, s)
    ensures forall c :: c in db.cycles ==>
      c in Commit(db, s).cycles && Commit(db, s).cycles[c].horizon == db.cycles[c].horizon
  {
    hide RowMatches, NoSuccessor, EventBound;
  }

  lemma {:induction false} ImportSpares(db: Database, a: Session, source: nat)
    requires a.phase.Written? && StillVerified(db, a) && a.plan.cycle != source && NoImporter(db, source)
    ensures NoImporter(Commit(db, a), source)
  {
    hide RowMatches, NoSuccessor, EventBound;
    forall d | d in Commit(db, a).cycles
      ensures !Imports(Commit(db, a).cycles[d], source)
    {
      assert d in db.cycles ==> !Imports(db.cycles[d], source);
    }
  }

  lemma {:induction false} CommitSparesWritten(w: World, s: nat, j: nat)
    requires Invariant(w) && s < |w.sessions| && j < |w.sessions| && j != s
    requires w.sessions[s].phase.Written? && w.sessions[j].phase.Written?
    ensures
      var b := w.sessions[j];
      ReadyToCommit(Commit(w.db, w.sessions[s]), b.plan, b.phase.receipt, b.phase.successor, b.phase.row, b.phase.added)
  {
    var a, b := w.sessions[s], w.sessions[j];
    assert StillVerified(w.db, a) && StillVerified(w.db, b);
    assert a.phase.successor != b.phase.successor;
    if b.phase.added {
      if a.plan.kind == Revalidation {
        assert HoldsKey(a, a.plan.key) && HoldsKey(b, b.plan.key);
      }
      CommitBindsOwnKey(w.db, a, b.plan.key);
    }
    hide Exclusive, Sound, NoSuccessor, RowMatches, EventBound;
  }

  /** Committing binds no key but the one the session has locked. */
  lemma {:induction false} CommitBindsOwnKey(db: Database, a: Session, key: nat)
    requires a.phase.Written? && StillVerified(db, a) && !EventBound(db, key)
    requires a.plan.kind == Revalidation ==> a.plan.key != key
    ensures !EventBound(Commit(db, a), key)
  {
    hide RowMatches, NoSuccessor;
    forall c | c in Commit(db, a).cycles
      ensures !HasKey(Commit(db, a).cycles[c], key)
    {
      assert c in db.cycles ==> !HasKey(db.cycles[c], key);
    }
  }

  lemma {:induction false} CommitSparesCreators(w: World, s: nat)
    requires Invariant(w) && s < |w.sessions| && w.sessions[s].phase.Written?
    ensures CreatorsReady(w.(db := Commit(w.db, w.sessions[s])))
  {
    var a := w.sessions[s];
    assert StillVerified(w.db, a);
    forall i | 0 <= i < |w.creators| && w.creators[i].phase.Holding?
      ensures !EventBound(Commit(w.db, a), w.creators[i].request.key)
    {
      assert CreatorHolds(w.creators[i], w.creators[i].request.key);
      assert a.plan.kind == Revalidation ==> HoldsKey(a, a.plan.key);
      CommitBindsOwnKey(w.db, a, w.creators[i].request.key);
    }
  }

  lemma {:induction false} CommitKeeps(w: World, s: nat)
    requires Invariant(w) && s < |w.sessions| && w.sessions[s].phase.Written?
    ensures Invariant(Put(w.(db := Commit(w.db, w.sessions[s])), s, Ended(Committed(w.sessions[s].phase.receipt))))
    ensures w.sessions[s].plan !in w.db.audits
  {
    var a := w.sessions[s];
    assert StillVerified(w.db, a);
    CommitKeepsSound(w.db, a.plan, a.phase.receipt, a.phase.row);
    forall j | 0 <= j < |w.sessions| && j != s
      ensures StillVerified(Commit(w.db, a), w.sessions[j])
    {
      CommitSparesOthers(w, s, j);
    }
    CommitSparesCreators(w, s);
    assert Sound(Commit(w.db, a));
    var after := Put(w.(db := Commit(w.db, a)), s, Ended(Committed(a.phase.receipt)));
    hide Sound, RowMatches, NoSuccessor, ReadyToCommit, Commit, HorizonOf, EventBound;
    assert StillVerified(after.db, after.sessions[s]);
  }

  // ----- the rest of the platform -----

  /** Whatever the platform writes, what was recorded stands. */
  lemma {:induction false} PlatformKeepsSound(db: Database, cycle: nat, row: Cycle)
    requires Sound(db)
    requires if cycle in db.cycles then Overwrites(db, cycle, row)
      else row.recoveredBy.None? && row.importedBy.None? && (row.event.None? || !EventBound(db, row.event.value.key))
    ensures Sound(db.(cycles := db.cycles[cycle := row]))
  {
    var after := db.(cycles := db.cycles[cycle := row]);
    forall p | p in db.audits
      ensures Stands(after, p)
    {
      assert Stands(db, p);
      if db.audits[p].cycle == cycle && p.kind == Revalidation && row.importedBy.Some? {
        assert row.importedBy.value == p;
      }
    }
    forall c | c in after.cycles
      ensures MarksRecorded(after, c, after.cycles[c])
    {
      if c != cycle {
        assert MarksRecorded(db, c, db.cycles[c]);
      }
    }
    KeysStayUnique(db, cycle, row);
    hide Stands, MarksRecorded, KeysUnique;
  }

  lemma {:induction false} PlatformSpares(db: Database, cycle: nat, row: Cycle, s: Session)
    requires StillVerified(db, s)
    requires if cycle in db.cycles then Overwrites(db, cycle, row) && !HoldsRows(s, cycle)
      else !(s.phase.Written? && s.phase.successor == cycle)
           && (s.phase.Written? && s.phase.added ==> !HasKey(row, s.plan.key))
    ensures StillVerified(db.(cycles := db.cycles[cycle := row]), s)
  {
    var after := db.(cycles := db.cycles[cycle := row]);
    if Sure(s) {
      assert s.plan.cycle != cycle;
      if s.phase.Written? && s.phase.added && s.plan.kind == Revalidation {
        assert !EventBound(after, s.plan.key);
      }
    }
    hide RowMatches, EventBound;
  }

  lemma {:induction false} ProgressKeeps(w: World, cycle: nat, row: Cycle)
    requires Invariant(w) && cycle in w.db.cycles && RowsFree(w, cycle) && Overwrites(w.db, cycle, row)
    ensures Invariant(PutCycle(w, cycle, row))
  {
    var after := PutCycle(w, cycle, row);
    PlatformKeepsSound(w.db, cycle, row);
    forall j | 0 <= j < |w.sessions|
      ensures StillVerified(after.db, w.sessions[j])
    {
      assert StillVerified(w.db, w.sessions[j]);
      PlatformSpares(w.db, cycle, row, w.sessions[j]);
    }
    assert CreatorsReady(after) by {
      hide AllStillVerified, Sound, Exclusive;
    }
    hide Sound, StillVerified, CreatorsReady;
  }

  /** A scheduled cycle has no key, and a creator's key is locked. */
  lemma {:induction false} NewCycleKeeps(w: World, cycle: nat, row: Cycle)
    requires Invariant(w) && cycle !in w.db.cycles && !Reserved(w, cycle)
    requires row.recoveredBy.None? && row.importedBy.None?
    requires row.event.Some? ==> !EventBound(w.db, row.event.value.key)
    requires row.event.Some? ==> KeyFree(w, row.event.value.key)
    ensures Invariant(PutCycle(w, cycle, row))
  {
    var after := PutCycle(w, cycle, row);
    PlatformKeepsSound(w.db, cycle, row);
    forall j | 0 <= j < |w.sessions|
      ensures StillVerified(after.db, w.sessions[j])
    {
      var b := w.sessions[j];
      assert StillVerified(w.db, b);
      if b.phase.Written? && b.plan.kind == Revalidation {
        assert HoldsKey(b, b.plan.key);
      }
      PlatformSpares(w.db, cycle, row, b);
    }
    assert CreatorsReady(after) by {
      hide AllStillVerified, Sound, Exclusive;
      forall i | 0 <= i < |w.creators| && w.creators[i].phase.Holding?
        ensures !EventBound(after.db, w.creators[i].request.key)
      {
        assert CreatorHolds(w.creators[i], w.creators[i].request.key);
      }
    }
    hide Sound, StillVerified, CreatorsReady;
  }

  // ----- creators of research events -----

  lemma {:induction false} SpawnCreatorKeeps(w: World, request: Request, horizon: nat)
    requires Invariant(w)
    ensures Invariant(Step(w, SpawnCreator(request, horizon)))
  {
    hide Sound, StillVerified, EventBound;
  }

  lemma {:induction false} CreatorLetsGo(w: World, c: nat)
    requires Invariant(w) && c < |w.creators|
    ensures Invariant(PutCreator(w, c, Done))
  {
    hide Sound, StillVerified, EventBound;
  }

  lemma {:induction false} LockKeyKeeps(w: World, c: nat)
    requires Invariant(w) && c < |w.creators| && KeyFree(w, w.creators[c].request.key)
    requires !EventBound(w.db, w.creators[c].request.key)
    ensures Invariant(PutCreator(w, c, Holding))
  {
    hide Sound, StillVerified, EventBound;
  }

  /** The new event bears the key its creator has locked, so nobody else is about to add it. */
  lemma {:induction false} CreateKeeps(w: World, c: nat, cycle: nat, evidence: nat)
    requires Invariant(w) && c < |w.creators| && w.creators[c].phase.Holding?
    requires cycle !in w.db.cycles && !Reserved(w, cycle)
    ensures
      var row := NewRow(w.creators[c].horizon, Some(w.creators[c].request), evidence);
      Invariant(PutCreator(PutCycle(w, cycle, row), c, Done))
  {
    var row := NewRow(w.creators[c].horizon, Some(w.creators[c].request), evidence);
    var done := PutCreator(w, c, Done);
    CreatorLetsGo(w, c);
    assert KeyFree(done, w.creators[c].request.key) by {
      hide Sound, AllStillVerified, EventBound;
      assert CreatorHolds(w.creators[c], w.creators[c].request.key);
    }
    assert !Reserved(done, cycle);
    hide Invariant, EventBound, Reserved, KeyFree;
    NewCycleKeeps(done, cycle, row);
    assert PutCycle(done, cycle, row) == PutCreator(PutCycle(w, cycle, row), c, Done);
  }

  // ----- every step, every run -----

  lemma {:induction false} LookForReceiptEnds(db: Database, s: Session)
    ensures
      var phase := LookForReceiptPhase(db, s);
      phase.Ended? || (phase.NoReceipt? && (s.plan.kind == Revalidation ==> s.plan.cycle in db.cycles))
  {
  }

  lemma {:induction false} WritePhaseReady(w: World, s: nat, details: nat, target: nat, evidence: nat,
                                           mentions: set<nat>)
    requires Invariant(w) && s < |w.sessions| && CanWrite(w, s, target)
    ensures
      var phase := WritePhase(w, w.sessions[s], w.sessions[s].phase.horizon, details, target, evidence, mentions);
      || phase == Ended(Failed)
      || (phase.Written? && phase.horizon == w.sessions[s].phase.horizon
          && TargetFree(w, s, phase.successor, phase.added)
          && ReadyToCommit(w.db, w.sessions[s].plan, phase.receipt, phase.successor, phase.row, phase.added))
  {
    assert StillVerified(w.db, w.sessions[s]);
    if w.sessions[s].plan.kind == Recovery {
      assert HoldsRows(w.sessions[s], w.sessions[s].plan.cycle);
      hide Sound, KeysExclusive, HorizonsExclusive, CreatorsReady, NoSuccessor, EventBound;
    } else {
      hide Exclusive, Sound, CreatorsReady, DistinctSuccessors, NoSuccessor, EventBound;
    }
  }

  lemma {:induction false} WriteStepKeeps(w: World, s: nat, details: nat, target: nat, evidence: nat,
                                          mentions: set<nat>)
    requires Invariant(w) && s < |w.sessions| && CanWrite(w, s, target)
    ensures Invariant(Put(w, s, WritePhase(w, w.sessions[s], w.sessions[s].phase.horizon, details, target, evidence,
                                           mentions)))
  {
    var phase := WritePhase(w, w.sessions[s], w.sessions[s].phase.horizon, details, target, evidence, mentions);
    WritePhaseReady(w, s, details, target, evidence, mentions);
    hide Invariant, ReadyToCommit, WritePhase, TargetFree, CanTake;
    if phase.Written? {
      WriteKeeps(w, s, phase.receipt, phase.successor, phase.row, phase.added);
    } else {
      LetGo(w, s, phase);
    }
  }

  lemma {:induction false} StepKeeps(w: World, e: Event)
    requires Invariant(w)
    ensures Invariant(Step(w, e))
  {
    hide Invariant, HorizonFree, RowsFree, KeyFree, HorizonOf, PlanHolds, LookForReceiptPhase, Reserved, Commit;
    hide WritePhase, CanWrite, EventBound, Owned, ManualOn, Overwrites;
    match e
    case Spawn(plan, mode, release) => SpawnKeeps(w, plan, mode, release);
    case LookForReceipt(s) =>
      if s < |w.sessions| && w.sessions[s].phase.Started? {
        LookForReceiptEnds(w.db, w.sessions[s]);
        LetGo(w, s, LookForReceiptPhase(w.db, w.sessions[s]));
      }
    case LockHorizon(s) =>
      if s < |w.sessions| && w.sessions[s].phase.NoReceipt? && HorizonFree(w, HorizonOf(w.db, w.sessions[s].plan)) {
        LockHorizonKeeps(w, s);
      }
    case LockRows(s) =>
      if s < |w.sessions| && w.sessions[s].phase.HorizonLocked? && RowsFree(w, w.sessions[s].plan.cycle) {
        LockRowsKeeps(w, s);
      }
    case Verify(s) =>
      if s < |w.sessions| && w.sessions[s].phase.RowsLocked? {
        if PlanHolds(w.db, w.sessions[s].plan, w.sessions[s].release) {
          VerifyKeeps(w, s);
        } else {
          LetGo(w, s, Ended(Failed));
        }
      }
    case LockEvent(s) =>
      if Step(w, e) != w {
        LockEventKeeps(w, s);
      }
    case Write(s, details, target, evidence, mentions) =>
      if s < |w.sessions| && CanWrite(w, s, target) {
        WriteStepKeeps(w, s, details, target, evidence, mentions);
      }
    case Finish(s) =>
      if s < |w.sessions| && w.sessions[s].phase.Written? {
        CommitKeeps(w, s);
        LetGo(w, s, Ended(RolledBack));
      }
    case Abort(s) =>
      if s < |w.sessions| && !w.sessions[s].phase.Ended? {
        LetGo(w, s, Ended(Failed));
      }
    case SpawnCreator(request, horizon) => SpawnCreatorKeeps(w, request, horizon);
    case LockKey(c) =>
      if Step(w, e) != w {
        CreatorLetsGo(w, c);
        if !EventBound(w.db, w.creators[c].request.key) {
          LockKeyKeeps(w, c);
        }
      }
    case Create(c, cycle, evidence) =>
      if Step(w, e) != w {
        CreatorLetsGo(w, c);
        if cycle !in w.db.cycles && !Reserved(w, cycle) {
          CreateKeeps(w, c, cycle, evidence);
        }
      }
    case GiveUp(c) =>
      if Step(w, e) != w {
        CreatorLetsGo(w, c);
      }
    case Progress(cycle, row) =>
      if cycle in w.db.cycles && RowsFree(w, cycle) && Overwrites(w.db, cycle, row) {
        ProgressKeeps(w, cycle, row);
      }
    case Schedule(cycle, horizon, evidence) =>
      if Step(w, e) != w {
        NewCycleKeeps(w, cycle, NewRow(horizon, None, evidence));
      }
  }

  /** Whatever the operators, plans, creators, crashes and interleaving, every reachable state satisfies the
      invariant. */
  lemma {:induction false} RunKeeps(w: World, events: seq<Event>)
    requires Invariant(w)
    ensures Invariant(Run(w, events))
  {
    hide Invariant;
    if events != [] {
      RunKeeps(w, events[..|events| - 1]);
      StepKeeps(Run(w, events[..|events| - 1]), events[|events| - 1]);
    }
  }
}
