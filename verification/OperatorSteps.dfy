/** Operators recover a blocked research cycle, or import the sealed result of a finished one into a successor cycle.

    Any number of operators run the same kind of transaction at once: look for an earlier receipt, lock the horizon,
    lock the rows, verify the reviewed plan again, write, and commit or roll back.  A revalidation writes by creating
    the research event its plan names, as the rest of the platform does, and creators of ordinary research events run
    next to the operators.  Every statement reads the latest committed state, and locks are held until the transaction
    ends.  A plan stands for its own digest.
 */
module OperatorSteps {
  import opened Values

  datatype Kind = Recovery | Revalidation

  /** A reviewed plan: which cycle, on which evidence, for which release; `key` is the research event a revalidation
      creates, and `note` covers actor and reason. */
  datatype Plan = Plan(kind: Kind, cycle: nat, horizon: nat, evidence: nat, release: nat, key: nat, note: nat)

  /** `cycle` is the cycle that was written, and `added` tells a new cycle from a rewritten one. */
  datatype Receipt = Receipt(plan: Plan, cycle: nat, added: bool, details: nat)

  /** A manual research event is asked for under a key; `budget` covers loops, duration and completion mode, and
      the dataset and configuration that are frozen with them. */
  datatype Request = Request(key: nat, budget: nat, note: nat)

  datatype CycleStatus = Active | Paused | Blocked | Succeeded

  /** A scheduled cycle has no `event`.  `retired` cycles own no horizon, `closed` ones take no branch, `joint` tells
      whether the joint branch exists, and `registered` whether its candidates and their independent validation are
      registered.  `recoveredBy` and `importedBy` are the marks that a committed plan leaves in the state of a cycle;
      `mentions` are the other cycles whose identifiers that state contains. */
  datatype Cycle = Cycle(horizon: nat, event: Option<Request>, status: CycleStatus, finished: bool,
                         retired: bool, closed: bool, joint: bool, registered: bool, evidence: nat,
                         recoveredBy: Option<Plan>, importedBy: Option<Plan>, mentions: set<nat>)

  datatype Database = Database(cycles: map<nat, Cycle>, audits: map<Plan, Receipt>)

  datatype Mode = CheckOnly | Execute

  datatype Ending = Replayed(receipt: Receipt) | Committed(receipt: Receipt) | RolledBack | Failed

  /** `added` tells a new cycle from a rewritten one. */
  datatype Phase =
    | Started
    | NoReceipt
    | HorizonLocked(horizon: nat)
    | RowsLocked(horizon: nat)
    | Verified(horizon: nat)
    | EventLocked(horizon: nat)
    | Written(horizon: nat, receipt: Receipt, successor: nat, row: Cycle, added: bool)
    | Ended(ending: Ending)

  /** `release` is the release the operator runs under. */
  datatype Session = Session(plan: Plan, mode: Mode, release: nat, phase: Phase)

  /** An ordinary creation of a research event locks the event key first and the horizon second. */
  datatype Creation = Waiting | Holding | Done

  datatype Creator = Creator(request: Request, horizon: nat, phase: Creation)

  datatype World = World(db: Database, sessions: seq<Session>, creators: seq<Creator>)

  // ----- locks are held exactly by the transactions in these phases -----

  predicate Locked(s: Session) {
    s.phase.HorizonLocked? || s.phase.RowsLocked? || s.phase.Verified? || s.phase.EventLocked? || s.phase.Written?
  }

  predicate HoldsHorizon(s: Session, horizon: nat) {
    Locked(s) && s.phase.horizon == horizon
  }

  /** The rows of the plan's cycle, and of the cycle that is being rewritten. */
  predicate HoldsRows(s: Session, cycle: nat) {
    || (Locked(s) && !s.phase.HorizonLocked? && s.plan.cycle == cycle)
    || (s.phase.Written? && !s.phase.added && s.phase.successor == cycle)
  }

  predicate HoldsKey(s: Session, key: nat) {
    s.plan.kind == Revalidation && (s.phase.EventLocked? || s.phase.Written?) && s.plan.key == key
  }

  predicate CreatorHolds(c: Creator, key: nat) {
    c.phase.Holding? && c.request.key == key
  }

  predicate HorizonFree(w: World, horizon: nat) {
    forall i :: 0 <= i < |w.sessions| ==> !HoldsHorizon(w.sessions[i], horizon)
  }

  predicate RowsFree(w: World, cycle: nat) {
    forall i :: 0 <= i < |w.sessions| ==> !HoldsRows(w.sessions[i], cycle)
  }

  /** No session but `s` holds the rows of the cycle. */
  predicate RowsFreeFor(w: World, s: nat, cycle: nat) {
    forall i :: 0 <= i < |w.sessions| && i != s ==> !HoldsRows(w.sessions[i], cycle)
  }

  predicate KeyFree(w: World, key: nat) {
    && (forall i :: 0 <= i < |w.sessions| ==> !HoldsKey(w.sessions[i], key))
    && (forall i :: 0 <= i < |w.creators| ==> !CreatorHolds(w.creators[i], key))
  }

  // ----- what the scripts require of the database -----

  /** A finished manual activity with its joint branch, succeeded or blocked. */
  predicate Terminal(c: Cycle, status: CycleStatus) {
    c.status == status && c.finished && c.joint && c.event.Some?
  }

  /** A blocked activity whose result was never delivered. */
  predicate Unrecovered(c: Cycle) {
    Terminal(c, Blocked) && c.recoveredBy.None? && !c.registered
  }

  /** A finished activity whose candidates were validated independently. */
  predicate Evaluated(c: Cycle) {
    Terminal(c, Succeeded) && c.registered
  }

  /** The row itself is still what the plan was reviewed for. */
  predicate RowMatches(c: Cycle, p: Plan) {
    && c.evidence == p.evidence && c.horizon == p.horizon
    && match p.kind
       case Recovery => Unrecovered(c)
       case Revalidation => Evaluated(c)
  }

  predicate NoSuccessor(db: Database, p: Plan) {
    match p.kind
    case Recovery => forall d :: d in db.cycles && d != p.cycle ==> p.cycle !in db.cycles[d].mentions
    case Revalidation => forall d :: d in db.cycles ==> !Imports(db.cycles[d], p.cycle)
  }

  predicate Imports(c: Cycle, source: nat) {
    c.importedBy.Some? && c.importedBy.value.cycle == source
  }

  /** Planning again now gives the same plan. */
  predicate PlanHolds(db: Database, p: Plan, release: nat) {
    p.cycle in db.cycles && RowMatches(db.cycles[p.cycle], p) && NoSuccessor(db, p) && p.release == release
  }

  // ----- creating a research event -----

  predicate HasKey(c: Cycle, key: nat) {
    c.event.Some? && c.event.value.key == key
  }

  predicate EventBound(db: Database, key: nat) {
    exists c :: c in db.cycles && HasKey(db.cycles[c], key)
  }

  /** An active cycle, or a paused manual one that has not finished, owns its horizon. */
  predicate Owns(c: Cycle, horizon: nat) {
    && c.horizon == horizon && !c.retired
    && (c.status == Active || (c.status == Paused && c.event.Some? && !c.finished))
  }

  predicate Owned(db: Database, horizon: nat) {
    exists c :: c in db.cycles && Owns(db.cycles[c], horizon)
  }

  /** The request a revalidation makes: that of its source, under the plan's key and note. */
  function RequestOf(source: Cycle, p: Plan): Request
    requires source.event.Some?
  {
    Request(p.key, source.event.value.budget, p.note)
  }

  /** The event of a cycle was asked for by exactly this request, which includes the horizon. */
  predicate SameRequest(c: Cycle, source: Cycle, p: Plan) {
    source.event.Some? && c.event == Some(RequestOf(source, p)) && c.horizon == source.horizon
  }

  /** An existing event can take the import: finished activities are immutable, closed ones take no branch, and the
      joint branch is unique. */
  predicate Reusable(c: Cycle, source: Cycle, p: Plan) {
    SameRequest(c, source, p) && !c.finished && !c.closed && !c.joint
  }

  // ----- steps -----

  /** What the rest of the platform may do besides creating events: move a cycle whose row nobody has locked, or add a
      scheduled cycle. */
  datatype Event =
    | Spawn(plan: Plan, mode: Mode, release: nat)
    | LookForReceipt(s: nat)
    | LockHorizon(s: nat)
    | LockRows(s: nat)
    | Verify(s: nat)
    | LockEvent(s: nat)
    | Write(s: nat, details: nat, target: nat, evidence: nat, mentions: set<nat>)
    | Finish(s: nat)
    | Abort(s: nat)
    | SpawnCreator(request: Request, horizon: nat)
    | LockKey(c: nat)
    | Create(c: nat, cycle: nat, evidence: nat)
    | GiveUp(c: nat)
    | Progress(cycle: nat, row: Cycle)
    | Schedule(cycle: nat, horizon: nat, evidence: nat)

  function Put(w: World, s: nat, phase: Phase): World
    requires s < |w.sessions|
  {
    w.(sessions := w.sessions[s := w.sessions[s].(phase := phase)])
  }

  function PutCreator(w: World, c: nat, phase: Creation): World
    requires c < |w.creators|
  {
    w.(creators := w.creators[c := w.creators[c].(phase := phase)])
  }

  /** The same world with one cycle added or rewritten. */
  function PutCycle(w: World, cycle: nat, row: Cycle): World {
    w.(db := w.db.(cycles := w.db.cycles[cycle := row]))
  }

  predicate Reserved(w: World, cycle: nat) {
    exists i :: 0 <= i < |w.sessions| && w.sessions[i].phase.Written? && w.sessions[i].phase.successor == cycle
  }

  /** The horizon a session locks: the plan's own for a recovery, the source cycle's for a revalidation. */
  function HorizonOf(db: Database, p: Plan): nat {
    if p.kind == Revalidation && p.cycle in db.cycles then db.cycles[p.cycle].horizon else p.horizon
  }

  function LookForReceiptPhase(db: Database, s: Session): Phase {
    if s.plan in db.audits then Ended(Replayed(db.audits[s.plan]))
    else if s.plan.kind == Revalidation && !(s.plan.cycle in db.cycles && Evaluated(db.cycles[s.plan.cycle]))
    then Ended(Failed)
    else NoReceipt
  }

  /** The recovered cycle as it will be committed. */
  function RecoveredRow(row: Cycle, p: Plan, evidence: nat): Cycle {
    row.(status := Active, finished := false, registered := true, evidence := evidence, recoveredBy := Some(p))
  }

  /** A new successor of the source. */
  function SuccessorRow(source: Cycle, p: Plan, evidence: nat, mentions: set<nat>): Cycle
    requires source.event.Some?
  {
    Cycle(source.horizon, Some(RequestOf(source, p)), Active, false, false, false, true, true, evidence, None,
          Some(p), mentions + {p.cycle})
  }

  /** An event that was created before under the same request takes the import. */
  function ReusedRow(row: Cycle, p: Plan, evidence: nat, mentions: set<nat>): Cycle {
    row.(status := Active, retired := false, joint := true, registered := true, evidence := evidence,
         importedBy := Some(p), mentions := mentions + {p.cycle})
  }

  /** A revalidation creates its event, or takes up the one its key is bound to, and reads its source once more. */
  function ImportPhase(w: World, s: Session, horizon: nat, details: nat, target: nat, evidence: nat,
                       mentions: set<nat>): Phase
    requires s.plan.cycle in w.db.cycles
  {
    var p, source := s.plan, w.db.cycles[s.plan.cycle];
    if !Evaluated(source) || source.evidence != p.evidence then Ended(Failed)
    else if EventBound(w.db, p.key) then
      if target in w.db.cycles && Reusable(w.db.cycles[target], source, p)
      then Written(horizon, Receipt(p, target, false, details), target,
                   ReusedRow(w.db.cycles[target], p, evidence, mentions), false)
      else Ended(Failed)
    else if Owned(w.db, source.horizon) || target in w.db.cycles || Reserved(w, target) then Ended(Failed)
    else Written(horizon, Receipt(p, target, true, details), target, SuccessorRow(source, p, evidence, mentions), true)
  }

  /** A recovery reads its snapshot a second time. */
  function RecoveryPhase(w: World, s: Session, horizon: nat, details: nat, evidence: nat): Phase
    requires s.plan.cycle in w.db.cycles
  {
    var p, row := s.plan, w.db.cycles[s.plan.cycle];
    if Unrecovered(row) && NoSuccessor(w.db, p)
    then Written(horizon, Receipt(p, p.cycle, false, details), p.cycle, RecoveredRow(row, p, evidence), false)
    else Ended(Failed)
  }

  function WritePhase(w: World, s: Session, horizon: nat, details: nat, target: nat, evidence: nat,
                      mentions: set<nat>): Phase
  {
    if s.plan.cycle !in w.db.cycles then Ended(Failed)
    else if s.plan.kind == Recovery then RecoveryPhase(w, s, horizon, details, evidence)
    else ImportPhase(w, s, horizon, details, target, evidence, mentions)
  }

  /** When the key is bound, the target is the cycle it is bound to, and its row has to be free. */
  predicate CanTake(w: World, s: nat, target: nat)
    requires s < |w.sessions|
  {
    var p := w.sessions[s].plan;
    EventBound(w.db, p.key) ==>
      && target in w.db.cycles && HasKey(w.db.cycles[target], p.key)
      && (p.cycle in w.db.cycles && SameRequest(w.db.cycles[target], w.db.cycles[p.cycle], p) ==>
            RowsFreeFor(w, s, target))
  }

  predicate CanWrite(w: World, s: nat, target: nat)
    requires s < |w.sessions|
  {
    if w.sessions[s].plan.kind == Recovery then w.sessions[s].phase.Verified?
    else w.sessions[s].phase.EventLocked? && CanTake(w, s, target)
  }

  function Commit(db: Database, s: Session): Database
    requires s.phase.Written?
  {
    Database(db.cycles[s.phase.successor := s.phase.row], db.audits[s.plan := s.phase.receipt])
  }

  /** The row of a scheduled cycle, or of an ordinary research event. */
  function NewRow(horizon: nat, event: Option<Request>, evidence: nat): Cycle {
    Cycle(horizon, event, Active, false, false, false, false, false, evidence, None, None, {})
  }

  /** A manual event that is active, or paused before its end, keeps its horizon from the schedule. */
  predicate ManualOn(db: Database, horizon: nat) {
    exists c :: c in db.cycles && db.cycles[c].event.Some? && db.cycles[c].horizon == horizon
                && (db.cycles[c].status == Active || (db.cycles[c].status == Paused && !db.cycles[c].finished))
  }

  /** The platform writes states that it read in an earlier transaction, so a mark may be put back to what it was at any
      time since the cycle exists: absent, or a plan that was recorded for it.  A cycle that an import added was never
      without its import mark. */
  predicate EarlierRecovery(db: Database, cycle: nat, mark: Option<Plan>) {
    mark.None? || (mark.value in db.audits && mark.value.kind == Recovery && mark.value.cycle == cycle)
  }

  predicate EarlierImport(db: Database, cycle: nat, mark: Option<Plan>) {
    match mark
    case None => forall q :: q in db.audits && ImportedInto(db, q, cycle) ==> !db.audits[q].added
    case Some(q) => q in db.audits && ImportedInto(db, q, cycle)
  }

  predicate ImportedInto(db: Database, q: Plan, cycle: nat)
    requires q in db.audits
  {
    q.kind == Revalidation && db.audits[q].cycle == cycle
  }

  /** Horizon, event, branches and registered candidates are not part of the state; nothing removes them. */
  predicate Overwrites(db: Database, cycle: nat, row: Cycle)
    requires cycle in db.cycles
  {
    var c := db.cycles[cycle];
    && row.horizon == c.horizon && row.event == c.event
    && (c.joint ==> row.joint) && (c.registered ==> row.registered)
    && EarlierRecovery(db, cycle, row.recoveredBy) && EarlierImport(db, cycle, row.importedBy)
  }

  /** One step; an event that is not possible now changes nothing. */
  function Step(w: World, e: Event): World {
    match e
    case Spawn(plan, mode, release) => w.(sessions := w.sessions + [Session(plan, mode, release, Started)])
    case LookForReceipt(s) =>
      if s < |w.sessions| && w.sessions[s].phase.Started?
      then Put(w, s, LookForReceiptPhase(w.db, w.sessions[s])) else w
    case LockHorizon(s) =>
      if s < |w.sessions| && w.sessions[s].phase.NoReceipt? && HorizonFree(w, HorizonOf(w.db, w.sessions[s].plan))
      then Put(w, s, HorizonLocked(HorizonOf(w.db, w.sessions[s].plan))) else w
    case LockRows(s) =>
      if s < |w.sessions| && w.sessions[s].phase.HorizonLocked? && RowsFree(w, w.sessions[s].plan.cycle)
      then Put(w, s, RowsLocked(w.sessions[s].phase.horizon)) else w
    case Verify(s) =>
      if s < |w.sessions| && w.sessions[s].phase.RowsLocked?
      then Put(w, s, if PlanHolds(w.db, w.sessions[s].plan, w.sessions[s].release)
                     then Verified(w.sessions[s].phase.horizon) else Ended(Failed))
      else w
    case LockEvent(s) =>
      if s < |w.sessions| && w.sessions[s].phase.Verified? && w.sessions[s].plan.kind == Revalidation
         && KeyFree(w, w.sessions[s].plan.key)
      then Put(w, s, EventLocked(w.sessions[s].phase.horizon)) else w
    case Write(s, details, target, evidence, mentions) =>
      if s < |w.sessions| && CanWrite(w, s, target)
      then Put(w, s, WritePhase(w, w.sessions[s], w.sessions[s].phase.horizon, details, target, evidence, mentions))
      else w
    case Finish(s) =>
      if s < |w.sessions| && w.sessions[s].phase.Written? then
        if w.sessions[s].mode == Execute
        then Put(w.(db := Commit(w.db, w.sessions[s])), s, Ended(Committed(w.sessions[s].phase.receipt)))
        else Put(w, s, Ended(RolledBack))
      else w
    case Abort(s) => if s < |w.sessions| && !w.sessions[s].phase.Ended? then Put(w, s, Ended(Failed)) else w
    case SpawnCreator(request, horizon) => w.(creators := w.creators + [Creator(request, horizon, Waiting)])
    case LockKey(c) =>
      if c < |w.creators| && w.creators[c].phase.Waiting? && KeyFree(w, w.creators[c].request.key)
      then PutCreator(w, c, if EventBound(w.db, w.creators[c].request.key) then Done else Holding) else w
    case Create(c, cycle, evidence) =>
      if c < |w.creators| && w.creators[c].phase.Holding? && HorizonFree(w, w.creators[c].horizon) then
        if Owned(w.db, w.creators[c].horizon) || cycle in w.db.cycles || Reserved(w, cycle) then PutCreator(w, c, Done)
        else
          PutCreator(PutCycle(w, cycle, NewRow(w.creators[c].horizon, Some(w.creators[c].request), evidence)), c, Done)
      else w
    case GiveUp(c) => if c < |w.creators| && !w.creators[c].phase.Done? then PutCreator(w, c, Done) else w
    case Progress(cycle, row) =>
      if cycle in w.db.cycles && RowsFree(w, cycle) && Overwrites(w.db, cycle, row)
      then PutCycle(w, cycle, row) else w
    case Schedule(cycle, horizon, evidence) =>
      if cycle !in w.db.cycles && !Reserved(w, cycle) && HorizonFree(w, horizon) && !ManualOn(w.db, horizon)
      then PutCycle(w, cycle, NewRow(horizon, None, evidence)) else w
  }

  function Run(w: World, events: seq<Event>): World {
    if events == [] then w else Step(Run(w, events[..|events| - 1]), events[|events| - 1])
  }
}
