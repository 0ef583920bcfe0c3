/** Replaying a fin_quant trace: arm coverage, joint bundles and the research outcome.

    A trace is the list of its rounds in loop order.  Hypothesis texts, recipes and exported files do not influence the
    decisions below and are folded into an opaque `payload` of every artifact.
 */
module FinQuantTrace {
  import opened Values

  datatype Kind = Factor | Model

  datatype Artifact = Artifact(name: string, code: string, payload: int)

  datatype Based = Based(kind: Kind, artifact: Artifact)

  datatype Snapshot = Snapshot(kind: Kind, artifacts: seq<Artifact>, based: seq<Based>)

  datatype Round = Round(loopId: nat, action: Option<string>, snapshot: Option<Snapshot>, decision: Option<bool>)

  type Trace = seq<Round>

  // ----- freezing a runner result -----

  datatype Task = Typed(kind: Kind, name: string, payload: int) | Untyped

  /** The two source files of a workspace; `None` when absent or not text. */
  datatype Workspace = Workspace(factorSource: Option<string>, modelSource: Option<string>) {
    function Source(kind: Kind): Option<string> {
      if kind == Factor then factorSource else modelSource
    }
  }

  datatype Experiment = Experiment(tasks: seq<Task>, workspaces: seq<Workspace>)

  datatype RunnerResult = RunnerResult(experiment: Experiment, basedOn: seq<Experiment>, featuresReadable: bool)

  /** The characters that Python's `strip` removes. */
  predicate IsSpace(c: char) {
    var n := c as int;
    || 0x09 <= n <= 0x0D || 0x1C <= n <= 0x20 || n == 0x85 || n == 0xA0 || n == 0x1680 || 0x2000 <= n <= 0x200A
    || n == 0x2028 || n == 0x2029 || n == 0x202F || n == 0x205F || n == 0x3000
  }

  predicate Blank(code: string) {
    forall c :: c in code ==> IsSpace(c)
  }

  /** `strip`: white space is removed from both ends. */
  function Strip(code: string): string {
    if code == "" then ""
    else if IsSpace(code[0]) then Strip(code[1..])
    else if IsSpace(code[|code| - 1]) then Strip(code[..|code| - 1])
    else code
  }

  lemma {:induction false} BlankStripsToNothing(code: string)
    ensures Blank(code) <==> Strip(code) == ""
    decreases |code|
  {
    hide IsSpace;
    if code != "" {
      if IsSpace(code[0]) {
        BlankStripsToNothing(code[1..]);
        assert code == [code[0]] + code[1..];
      } else {
        assert code[0] in code;
        if IsSpace(code[|code| - 1]) {
          BlankStripsToNothing(code[..|code| - 1]);
          assert code[..|code| - 1][0] in code[..|code| - 1];
        }
      }
    }
  }

  predicate HasCode(source: Option<string>) {
    source.Some? && !Blank(source.value)
  }

  /** The artifacts of an experiment whose every workspace holds code, or `None`. */
  function FreezeArtifacts(kind: Kind, tasks: seq<Task>, workspaces: seq<Workspace>): Option<seq<Artifact>>
    requires |tasks| == |workspaces| && forall k :: 0 <= k < |tasks| ==> tasks[k].Typed?
  {
    if tasks == [] then Some([])
    else
      var last := |tasks| - 1;
      var front := FreezeArtifacts(kind, tasks[..last], workspaces[..last]);
      var source := workspaces[last].Source(kind);
      if front.None? || !HasCode(source) then None
      else Some(front.value + [Artifact(tasks[last].name, source.value, tasks[last].payload)])
  }

  /** Executable evidence of one earlier experiment; tasks without a type or code are skipped. */
  function FreezeBased(tasks: seq<Task>, workspaces: seq<Workspace>): seq<Based>
    requires |tasks| == |workspaces|
  {
    if tasks == [] then []
    else
      var last := |tasks| - 1;
      var front := FreezeBased(tasks[..last], workspaces[..last]);
      if tasks[last].Typed? && HasCode(workspaces[last].Source(tasks[last].kind)) then
        front + [Based(tasks[last].kind, Artifact(
          tasks[last].name, workspaces[last].Source(tasks[last].kind).value, tasks[last].payload))]
      else front
  }

  function FreezeAllBased(experiments: seq<Experiment>): seq<Based> {
    if experiments == [] then []
    else
      var e := experiments[|experiments| - 1];
      FreezeAllBased(experiments[..|experiments| - 1])
        + if |e.tasks| == |e.workspaces| then FreezeBased(e.tasks, e.workspaces) else []
  }

  function RunnerSnapshot(r: RunnerResult): Option<Snapshot> {
    var e := r.experiment;
    if e.tasks == [] || |e.tasks| != |e.workspaces| then None
    else if exists k :: 0 <= k < |e.tasks| && e.tasks[k].Untyped? then None
    else
      var kind := e.tasks[0].kind;
      if exists k :: 0 <= k < |e.tasks| && e.tasks[k].kind != kind then None
      else
        var artifacts := FreezeArtifacts(kind, e.tasks, e.workspaces);
        if artifacts.None? || !r.featuresReadable then None
        else Some(Snapshot(kind, artifacts.value, FreezeAllBased(r.basedOn)))
  }

  /** What the replay may rely on: something was produced, and all frozen code is real text. */
  predicate Executable(s: Snapshot) {
    && s.artifacts != []
    && (forall k :: 0 <= k < |s.artifacts| ==> !Blank(s.artifacts[k].code))
    && forall k :: 0 <= k < |s.based| ==> !Blank(s.based[k].artifact.code)
  }

  /** The task is of the kind, and the artifact holds its name, its payload and the code in its own workspace. */
  predicate Frozen(kind: Kind, task: Task, workspace: Workspace, artifact: Artifact) {
    && task.Typed? && task.kind == kind && artifact.name == task.name && artifact.payload == task.payload
    && Some(artifact.code) == (if kind.Factor? then workspace.factorSource else workspace.modelSource)
    && !Blank(artifact.code)
  }

  lemma {:induction false} FreezesEach(kind: Kind, tasks: seq<Task>, workspaces: seq<Workspace>)
    requires |tasks| == |workspaces| && forall k :: 0 <= k < |tasks| ==> tasks[k].Typed? && tasks[k].kind == kind
    ensures
      var frozen := FreezeArtifacts(kind, tasks, workspaces);
      && (frozen.Some? <==> forall k :: 0 <= k < |tasks| ==> HasCode(workspaces[k].Source(kind)))
      && (frozen.Some? ==>
            && |frozen.value| == |tasks|
            && forall k :: 0 <= k < |tasks| ==> Frozen(kind, tasks[k], workspaces[k], frozen.value[k]))
    decreases |tasks|
  {
    hide Blank;
    if tasks != [] {
      var last := |tasks| - 1;
      FreezesEach(kind, tasks[..last], workspaces[..last]);
      if FreezeArtifacts(kind, tasks, workspaces).None? && HasCode(workspaces[last].Source(kind)) {
        var k :| 0 <= k < last && !HasCode(workspaces[..last][k].Source(kind));
        assert !HasCode(workspaces[k].Source(kind));
      }
    }
  }

  /** Where an earlier experiment holds a task with a type and code of that type. */
  ghost predicate HoldsCode(experiments: seq<Experiment>, e: nat, k: nat) {
    && e < |experiments| && |experiments[e].tasks| == |experiments[e].workspaces| && k < |experiments[e].tasks|
    && experiments[e].tasks[k].Typed?
    && HasCode(experiments[e].workspaces[k].Source(experiments[e].tasks[k].kind))
  }

  predicate Before(a: (nat, nat), b: (nat, nat)) {
    a.0 < b.0 || (a.0 == b.0 && a.1 < b.1)
  }

  predicate OwnSource(task: Task, workspace: Workspace, based: Based) {
    task.Typed? && based.kind == task.kind && Frozen(task.kind, task, workspace, based.artifact)
  }

  /** The list holds, one after the other, what these places hold. */
  ghost predicate ListsPlaces(experiments: seq<Experiment>, places: seq<(nat, nat)>, based: seq<Based>) {
    && |places| == |based|
    && (forall x, y :: 0 <= x < y < |places| ==> Before(places[x], places[y]))
    && forall x :: 0 <= x < |places| ==>
      && HoldsCode(experiments, places[x].0, places[x].1)
      && OwnSource(experiments[places[x].0].tasks[places[x].1], experiments[places[x].0].workspaces[places[x].1],
                   based[x])
  }

  /** All places before a given one are listed. */
  ghost predicate ListsAllBefore(experiments: seq<Experiment>, places: seq<(nat, nat)>, end: (nat, nat)) {
    && (forall x :: 0 <= x < |places| ==> Before(places[x], end))
    && forall e: nat, k: nat :: HoldsCode(experiments, e, k) && Before((e, k), end) ==> (e, k) in places
  }

  /** One more place with code. */
  lemma {:induction false} ListsOne(experiments: seq<Experiment>, places: seq<(nat, nat)>, based: seq<Based>,
                                    e: nat, k: nat, b: Based)
    requires HoldsCode(experiments, e, k) && OwnSource(experiments[e].tasks[k], experiments[e].workspaces[k], b)
    requires ListsPlaces(experiments, places, based) && ListsAllBefore(experiments, places, (e, k))
    ensures ListsPlaces(experiments, places + [(e, k)], based + [b])
    ensures ListsAllBefore(experiments, places + [(e, k)], (e, k + 1))
  {
    hide HoldsCode, OwnSource;
    var after := places + [(e, k)];
    forall f: nat, l: nat | HoldsCode(experiments, f, l) && Before((f, l), (e, k + 1))
      ensures (f, l) in after
    {
      if (f, l) == (e, k) {
        assert after[|places|] == (f, l);
      } else {
        assert Before((f, l), (e, k));
      }
    }
  }

  lemma {:induction false} PassesOver(experiments: seq<Experiment>, places: seq<(nat, nat)>, e: nat, k: nat)
    requires !HoldsCode(experiments, e, k) && ListsAllBefore(experiments, places, (e, k))
    ensures ListsAllBefore(experiments, places, (e, k + 1))
  {
    hide HoldsCode;
    forall f: nat, l: nat | HoldsCode(experiments, f, l) && Before((f, l), (e, k + 1))
      ensures (f, l) in places
    {
      assert (f, l) != (e, k);
      assert Before((f, l), (e, k));
    }
  }

  lemma {:induction false} ListsTasks(experiments: seq<Experiment>, places: seq<(nat, nat)>, based: seq<Based>,
                                      e: nat, k: nat) returns (after: seq<(nat, nat)>)
    requires e < |experiments| && |experiments[e].tasks| == |experiments[e].workspaces| && k <= |experiments[e].tasks|
    requires ListsPlaces(experiments, places, based) && ListsAllBefore(experiments, places, (e, 0))
    ensures ListsPlaces(experiments, after,
                        based + FreezeBased(experiments[e].tasks[..k], experiments[e].workspaces[..k]))
    ensures ListsAllBefore(experiments, after, (e, k))
    decreases k
  {
    hide Blank, ListsPlaces, ListsAllBefore;
    if k == 0 {
      after := places;
      assert based + [] == based;
    } else {
      var before := ListsTasks(experiments, places, based, e, k - 1);
      var tasks, workspaces := experiments[e].tasks[..k], experiments[e].workspaces[..k];
      assert tasks[..k - 1] == experiments[e].tasks[..k - 1];
      assert workspaces[..k - 1] == experiments[e].workspaces[..k - 1];
      var front := FreezeBased(tasks[..k - 1], workspaces[..k - 1]);
      if HoldsCode(experiments, e, k - 1) {
        var frozen := FreezeBased(tasks, workspaces);
        var one := frozen[|frozen| - 1];
        assert frozen == front + [one] && based + front + [one] == based + frozen;
        ListsOne(experiments, before, based + front, e, k - 1, one);
        after := before + [(e, k - 1)];
      } else {
        assert FreezeBased(tasks, workspaces) == front;
        PassesOver(experiments, before, e, k - 1);
        after := before;
      }
    }
  }

  /** The executable evidence of earlier experiments: every task with a type and code of that type, in the order of the
      experiments and of their tasks, each with its own source; experiments of unequal lengths are passed over. */
  lemma {:induction false} BasedListExactly(experiments: seq<Experiment>) returns (places: seq<(nat, nat)>)
    ensures ListsPlaces(experiments, places, FreezeAllBased(experiments))
    ensures forall e: nat, k: nat :: HoldsCode(experiments, e, k) <==> (e, k) in places
  {
    places := ListsExperiments(experiments, |experiments|);
    assert experiments[..|experiments|] == experiments;
    hide HasCode, FreezeAllBased;
    forall e: nat, k: nat | HoldsCode(experiments, e, k)
      ensures (e, k) in places
    {
      assert Before((e, k), (|experiments|, 0));
    }
  }

  lemma {:induction false} ListsExperiments(experiments: seq<Experiment>, n: nat) returns (places: seq<(nat, nat)>)
    requires n <= |experiments|
    ensures ListsPlaces(experiments, places, FreezeAllBased(experiments[..n]))
    ensures ListsAllBefore(experiments, places, (n, 0))
    decreases n
  {
    hide HasCode;
    if n == 0 {
      places := [];
    } else {
      var before := ListsExperiments(experiments, n - 1);
      var e := experiments[n - 1];
      assert experiments[..n][..n - 1] == experiments[..n - 1];
      var front := FreezeAllBased(experiments[..n - 1]);
      if |e.tasks| == |e.workspaces| {
        places := ListsTasks(experiments, before, front, n - 1, |e.tasks|);
        assert e.tasks[..|e.tasks|] == e.tasks && e.workspaces[..|e.tasks|] == e.workspaces;
        hide FreezeBased, ListsPlaces;
        EndsExperiment(experiments, places, n - 1, |e.tasks|);
      } else {
        places := before;
        assert front + [] == front;
        hide ListsPlaces;
        EndsExperiment(experiments, places, n - 1, 0);
      }
    }
  }

  /** Behind the last task of an experiment comes the next experiment. */
  lemma {:induction false} EndsExperiment(experiments: seq<Experiment>, places: seq<(nat, nat)>, e: nat, k: nat)
    requires e < |experiments| && ListsAllBefore(experiments, places, (e, k))
    requires |experiments[e].tasks| == |experiments[e].workspaces| ==> |experiments[e].tasks| <= k
    ensures ListsAllBefore(experiments, places, (e + 1, 0))
  {
    hide HasCode;
    forall f: nat, l: nat | HoldsCode(experiments, f, l) && Before((f, l), (e + 1, 0))
      ensures (f, l) in places
    {
      assert Before((f, l), (e, k));
    }
  }

  /** The experiment of a runner result can be frozen: typed tasks of one kind, each with code in its own workspace. */
  ghost predicate Freezable(r: RunnerResult, kind: Kind) {
    var e := r.experiment;
    && e.tasks != [] && |e.tasks| == |e.workspaces| && r.featuresReadable
    && forall k :: 0 <= k < |e.tasks| ==>
      e.tasks[k].Typed? && e.tasks[k].kind == kind && HasCode(e.workspaces[k].Source(kind))
  }

  /** A snapshot exists exactly for such a result, and then holds for every task its own name, payload and source. */
  lemma {:induction false} SnapshotExactly(r: RunnerResult)
    ensures RunnerSnapshot(r).Some? <==> exists kind :: Freezable(r, kind)
    ensures RunnerSnapshot(r).Some? ==>
      var e, s := r.experiment, RunnerSnapshot(r).value;
      && Freezable(r, s.kind) && |s.artifacts| == |e.tasks| && s.based == FreezeAllBased(r.basedOn)
      && forall k :: 0 <= k < |e.tasks| ==> Frozen(s.kind, e.tasks[k], e.workspaces[k], s.artifacts[k])
  {
    hide HasCode, FreezeAllBased;
    var e := r.experiment;
    if e.tasks != [] && |e.tasks| == |e.workspaces| && e.tasks[0].Typed? {
      var kind := e.tasks[0].kind;
      if forall k :: 0 <= k < |e.tasks| ==> e.tasks[k].Typed? && e.tasks[k].kind == kind {
        FreezesEach(kind, e.tasks, e.workspaces);
        assert RunnerSnapshot(r).Some? ==> Freezable(r, kind);
      }
    }
  }

  /** Every snapshot that exists is executable; a bundle can therefore never fail for blank code. */
  lemma {:induction false} SnapshotsAreExecutable(r: RunnerResult)
    requires RunnerSnapshot(r).Some?
    ensures Executable(RunnerSnapshot(r).value)
    ensures |RunnerSnapshot(r).value.artifacts| == |r.experiment.tasks|
  {
    SnapshotExactly(r);
    var places := BasedListExactly(r.basedOn);
    hide RunnerSnapshot, FreezeAllBased, Blank;
  }

  // ----- arm coverage -----

  datatype ArmRounds = ArmRounds(proposed: seq<nat>, attempted: seq<nat>, executable: seq<nat>, accepted: seq<nat>)

  datatype Arms = Arms(factor: ArmRounds, model: ArmRounds) {
    function Get(kind: Kind): ArmRounds {
      if kind == Factor then factor else model
    }

    function With(kind: Kind, rounds: ArmRounds): Arms {
      if kind == Factor then Arms(rounds, model) else Arms(factor, rounds)
    }
  }

  datatype TraceError = UnsupportedAction | ArmDisagrees

  function ArmOf(action: string): Option<Kind> {
    if action == "factor" then Some(Factor) else if action == "model" then Some(Model) else None
  }

  function ActionOf(kind: Kind): string {
    if kind == Factor then "factor" else "model"
  }

  const NO_ROUNDS := ArmRounds([], [], [], [])

  /** A round the coverage accepts: a supported action, and a runner artifact of the selected arm. */
  predicate Supported(r: Round) {
    && (r.action.Some? ==> ArmOf(r.action.value).Some?)
    && (r.action.Some? && r.snapshot.Some? ==> ArmOf(r.action.value) == Some(r.snapshot.value.kind))
  }

  predicate Accepted(r: Round) {
    r.snapshot.Some? && r.decision == Some(true)
  }

  /** The four lists kept per arm. */
  datatype Mark = Proposed | Attempted | Executed | AcceptedRun

  predicate Marks(r: Round, kind: Kind, mark: Mark) {
    var proposed := r.action == Some(ActionOf(kind));
    var ran := r.snapshot.Some? && r.snapshot.value.kind == kind;
    var executed := ran && r.snapshot.value.artifacts != [];
    match mark
    case Proposed => proposed
    case Attempted => proposed || ran
    case Executed => executed
    case AcceptedRun => executed && Accepted(r)
  }

  /** The loop ids of the marked rounds, in trace order. */
  function LoopsWith(trace: Trace, kind: Kind, mark: Mark): seq<nat> {
    if trace == [] then []
    else
      var last := |trace| - 1;
      LoopsWith(trace[..last], kind, mark) + if Marks(trace[last], kind, mark) then [trace[last].loopId] else []
  }

  function RoundsOf(trace: Trace, kind: Kind): ArmRounds {
    ArmRounds(LoopsWith(trace, kind, Proposed), LoopsWith(trace, kind, Attempted),
              LoopsWith(trace, kind, Executed), LoopsWith(trace, kind, AcceptedRun))
  }

  ghost predicate MarkedLoop(trace: Trace, kind: Kind, mark: Mark, id: nat) {
    exists k :: 0 <= k < |trace| && Marks(trace[k], kind, mark) && trace[k].loopId == id
  }

  lemma {:induction false} MarkedLoopSplit(trace: Trace, kind: Kind, mark: Mark, id: nat)
    requires trace != []
    ensures
      var last := trace[|trace| - 1];
      MarkedLoop(trace, kind, mark, id) <==>
        MarkedLoop(trace[..|trace| - 1], kind, mark, id) || (Marks(last, kind, mark) && last.loopId == id)
  {
    hide Marks;
    var front := trace[..|trace| - 1];
    if MarkedLoop(front, kind, mark, id) {
      var k :| 0 <= k < |front| && Marks(front[k], kind, mark) && front[k].loopId == id;
      assert Marks(trace[k], kind, mark);
    }
    if MarkedLoop(trace, kind, mark, id) {
      var k :| 0 <= k < |trace| && Marks(trace[k], kind, mark) && trace[k].loopId == id;
      assert k < |front| ==> Marks(front[k], kind, mark);
    }
  }

  /** A list is exactly the loop ids of the marked rounds. */
  lemma {:induction false} LoopsWithExactly(trace: Trace, kind: Kind, mark: Mark, id: nat)
    ensures id in LoopsWith(trace, kind, mark) <==> MarkedLoop(trace, kind, mark, id)
    decreases |trace|
  {
    hide Marks, MarkedLoop;
    if trace != [] {
      LoopsWithExactly(trace[..|trace| - 1], kind, mark, id);
      MarkedLoopSplit(trace, kind, mark, id);
    } else {
      NothingMarked(kind, mark, id);
    }
  }

  lemma {:induction false} NothingMarked(kind: Kind, mark: Mark, id: nat)
    ensures !MarkedLoop([], kind, mark, id)
  {
  }

  lemma {:induction false} LoopsWithEmpty(trace: Trace, kind: Kind, mark: Mark)
    ensures LoopsWith(trace, kind, mark) == [] <==> forall k :: 0 <= k < |trace| ==> !Marks(trace[k], kind, mark)
    decreases |trace|
  {
    hide Marks;
    if trace != [] {
      LoopsWithEmpty(trace[..|trace| - 1], kind, mark);
    }
  }

  ghost predicate LoopOrdered(trace: Trace) {
    forall j, k :: 0 <= j < k < |trace| ==> trace[j].loopId < trace[k].loopId
  }

  function Noted(rounds: ArmRounds, r: Round, kind: Kind): ArmRounds {
    ArmRounds(
      rounds.proposed + (if Marks(r, kind, Proposed) then [r.loopId] else []),
      rounds.attempted + (if Marks(r, kind, Attempted) then [r.loopId] else []),
      rounds.executable + (if Marks(r, kind, Executed) then [r.loopId] else []),
      rounds.accepted + (if Marks(r, kind, AcceptedRun) then [r.loopId] else []))
  }

  lemma {:induction false} RoundsOfPrefix(trace: Trace, n: nat, kind: Kind)
    requires n < |trace|
    ensures RoundsOf(trace[..n + 1], kind) == Noted(RoundsOf(trace[..n], kind), trace[n], kind)
  {
    hide Marks;
    assert trace[..n + 1][..n] == trace[..n];
  }

  /** One round entered into both arms, or the objection to it. */
  method CoverRound(arms: Arms, r: Round) returns (after: Result<Arms, TraceError>)
    requires r.loopId !in arms.factor.attempted && r.loopId !in arms.model.attempted
    ensures after.Ok? <==> Supported(r)
    ensures after.Ok? ==> after.value == Arms(Noted(arms.factor, r, Factor), Noted(arms.model, r, Model))
  {
    var arm: Option<Kind> := None;
    var entered := arms;
    if r.action.Some? {
      arm := ArmOf(r.action.value);
      if arm.None? {
        return Err(UnsupportedAction);
      }
      var rounds := entered.Get(arm.value);
      entered := entered.With(arm.value, rounds.(
        proposed := rounds.proposed + [r.loopId], attempted := rounds.attempted + [r.loopId]));
    }
    if r.snapshot.Some? {
      var kind := r.snapshot.value.kind;
      if arm.Some? && kind != arm.value {
        return Err(ArmDisagrees);
      }
      var rounds := entered.Get(kind);
      if r.loopId !in rounds.attempted {
        rounds := rounds.(attempted := rounds.attempted + [r.loopId]);
      }
      if r.snapshot.value.artifacts != [] {
        rounds := rounds.(executable := rounds.executable + [r.loopId]);
        if r.decision == Some(true) {
          rounds := rounds.(accepted := rounds.accepted + [r.loopId]);
        }
      }
      entered := entered.With(kind, rounds);
    }
    after := Ok(entered);
  }

  /** Coverage of a trace, round by round, or the first objection to it. */
  method ArmCoverage(trace: Trace) returns (coverage: Result<Arms, TraceError>)
    requires LoopOrdered(trace)
    ensures coverage.Ok? <==> forall k :: 0 <= k < |trace| ==> Supported(trace[k])
    ensures coverage.Ok? ==> coverage.value == Arms(RoundsOf(trace, Factor), RoundsOf(trace, Model))
  {
    hide Noted, Supported;
    var arms := Arms(NO_ROUNDS, NO_ROUNDS);
    for n := 0 to |trace|
      invariant forall k :: 0 <= k < n ==> Supported(trace[k])
      invariant arms == Arms(RoundsOf(trace[..n], Factor), RoundsOf(trace[..n], Model))
    {
      FreshLoop(trace, n, Factor);
      FreshLoop(trace, n, Model);
      RoundsOfPrefix(trace, n, Factor);
      RoundsOfPrefix(trace, n, Model);
      var after := CoverRound(arms, trace[n]);
      if after.Err? {
        return after;
      }
      arms := after.value;
    }
    assert trace[..|trace|] == trace;
    coverage := Ok(arms);
  }

  /** Loop ids of earlier rounds differ from the current one. */
  lemma {:induction false} FreshLoop(trace: Trace, n: nat, kind: Kind)
    requires LoopOrdered(trace) && n < |trace|
    ensures trace[n].loopId !in RoundsOf(trace[..n], kind).attempted
  {
    LoopsWithExactly(trace[..n], kind, Attempted, trace[n].loopId);
  }

  predicate AttemptedComplete(trace: Trace) {
    RoundsOf(trace, Factor).attempted != [] && RoundsOf(trace, Model).attempted != []
  }

  predicate AcceptedComplete(trace: Trace) {
    RoundsOf(trace, Factor).accepted != [] && RoundsOf(trace, Model).accepted != []
  }

  // ----- replaying accepted rounds -----

  /** Insertion-ordered dictionary: overwriting keeps the place. */
  type Registry = seq<(string, Artifact)>

  function Find(registry: Registry, name: string): Option<Artifact> {
    if registry == [] then None
    else if registry[0].0 == name then Some(registry[0].1)
    else Find(registry[1..], name)
  }

  function Put(registry: Registry, a: Artifact): Registry {
    if registry == [] then [(a.name, a)]
    else if registry[0].0 == a.name then [(a.name, a)] + registry[1..]
    else [registry[0]] + Put(registry[1..], a)
  }

  lemma {:induction false} FindAfterPut(registry: Registry, a: Artifact, name: string)
    ensures Find(Put(registry, a), name) == if name == a.name then Some(a) else Find(registry, name)
    decreases |registry|
  {
    if registry != [] && registry[0].0 != a.name {
      FindAfterPut(registry[1..], a, name);
    }
  }

  datatype Bundle = Bundle(loopId: nat, factors: seq<Artifact>, model: Artifact)

  datatype Replay = Replay(
    factors: Registry, model: Option<Artifact>, arms: set<Kind>, bundles: seq<Bundle>)

  const START := Replay([], None, {}, [])

  function WithBased(s: Replay, based: seq<Based>): Replay {
    if based == [] then s
    else
      var before, b := WithBased(s, based[..|based| - 1]), based[|based| - 1];
      if b.kind == Factor then
        if Find(before.factors, b.artifact.name).None?
        then before.(factors := Put(before.factors, b.artifact)) else before
      else
        if before.model.None? then before.(model := Some(b.artifact)) else before
  }

  function PutAll(registry: Registry, artifacts: seq<Artifact>): Registry {
    if artifacts == [] then registry
    else Put(PutAll(registry, artifacts[..|artifacts| - 1]), artifacts[|artifacts| - 1])
  }

  /** A round that contributes to an arm: factors come in any number, a model round must hold exactly one. */
  predicate Contributes(r: Round) {
    && Accepted(r)
    && if r.snapshot.value.kind == Factor then r.snapshot.value.artifacts != [] else |r.snapshot.value.artifacts| == 1
  }

  predicate ContributesTo(r: Round, kind: Kind) {
    Contributes(r) && r.snapshot.value.kind == kind
  }

  function Contributed(s: Replay, snapshot: Snapshot): Replay
    requires snapshot.artifacts != []
  {
    if snapshot.kind == Factor
    then s.(factors := PutAll(s.factors, snapshot.artifacts), arms := s.arms + {Factor})
    else s.(model := Some(snapshot.artifacts[0]), arms := s.arms + {Model})
  }

  function Codes(registry: Registry): seq<Artifact> {
    seq(|registry|, k requires 0 <= k < |registry| => registry[k].1)
  }

  predicate Ready(s: Replay) {
    && s.factors != [] && s.model.Some? && s.arms == {Factor, Model}
    && (forall k :: 0 <= k < |s.factors| ==> !Blank(s.factors[k].1.code))
    && !Blank(s.model.value.code)
  }

  function Emitted(s: Replay, loopId: nat): Replay {
    if Ready(s) then s.(bundles := s.bundles + [Bundle(loopId, Codes(s.factors), s.model.value)]) else s
  }

  function Step(s: Replay, r: Round): Replay {
    if !Accepted(r) then s
    else
      var known := WithBased(s, r.snapshot.value.based);
      if Contributes(r) then Emitted(Contributed(known, r.snapshot.value), r.loopId) else known
  }

  function ReplayOf(trace: Trace): Replay {
    if trace == [] then START else Step(ReplayOf(trace[..|trace| - 1]), trace[|trace| - 1])
  }

  method AddBased(start: Replay, based: seq<Based>) returns (s: Replay)
    ensures s == WithBased(start, based)
  {
    s := start;
    for k := 0 to |based|
      invariant s == WithBased(start, based[..k])
    {
      var b := based[k];
      assert based[..k + 1][..k] == based[..k];
      if b.kind == Factor {
        if Find(s.factors, b.artifact.name).None? {
          s := s.(factors := Put(s.factors, b.artifact));
        }
      } else if s.model.None? {
        s := s.(model := Some(b.artifact));
      }
    }
    assert based[..|based|] == based;
  }

  method PutArtifacts(start: Registry, artifacts: seq<Artifact>) returns (registry: Registry)
    ensures registry == PutAll(start, artifacts)
  {
    registry := start;
    for k := 0 to |artifacts|
      invariant registry == PutAll(start, artifacts[..k])
    {
      assert artifacts[..k + 1][..k] == artifacts[..k];
      registry := Put(registry, artifacts[k]);
    }
    assert artifacts[..|artifacts|] == artifacts;
  }

  /** All factors in registry order, or nothing at all when one of them has no code. */
  method CollectCode(registry: Registry) returns (materialized: seq<Artifact>)
    requires registry != []
    ensures materialized ==
      if forall k :: 0 <= k < |registry| ==> !Blank(registry[k].1.code) then Codes(registry) else []
  {
    hide Blank;
    materialized := [];
    for k := 0 to |registry|
      invariant materialized == Codes(registry)[..k]
      invariant forall j :: 0 <= j < k ==> !Blank(registry[j].1.code)
    {
      if Blank(registry[k].1.code) {
        return [];
      }
      materialized := materialized + [registry[k].1];
    }
  }

  /** The joint bundles of a trace, one per round that leaves a complete executable state. */
  method MaterializeBundles(trace: Trace) returns (bundles: seq<Bundle>)
    ensures bundles == ReplayOf(trace).bundles
  {
    hide Blank, WithBased, PutAll;
    var s := START;
    for n := 0 to |trace|
      invariant s == ReplayOf(trace[..n])
    {
      var r := trace[n];
      assert trace[..n + 1][..n] == trace[..n];
      if r.snapshot.None? || r.decision != Some(true) {
        continue;
      }
      var snapshot := r.snapshot.value;
      s := AddBased(s, snapshot.based);
      if snapshot.kind == Factor {
        if snapshot.artifacts == [] {
          continue;
        }
        var registry := PutArtifacts(s.factors, snapshot.artifacts);
        s := s.(factors := registry, arms := s.arms + {Factor});
      } else {
        if |snapshot.artifacts| != 1 {
          continue;
        }
        s := s.(model := Some(snapshot.artifacts[0]), arms := s.arms + {Model});
      }
      if s.factors == [] || s.model.None? || s.arms != {Factor, Model} {
        continue;
      }
      var materialized := CollectCode(s.factors);
      if materialized == [] || Blank(s.model.value.code) {
        continue;
      }
      s := s.(bundles := s.bundles + [Bundle(r.loopId, materialized, s.model.value)]);
    }
    assert trace[..|trace|] == trace;
    bundles := s.bundles;
  }

  // ----- what the bundles hold -----

  lemma {:induction false} WithBasedFacts(s: Replay, based: seq<Based>)
    ensures WithBased(s, based).arms == s.arms && WithBased(s, based).bundles == s.bundles
    ensures s.model.Some? ==> WithBased(s, based).model == s.model
    ensures forall name :: Find(s.factors, name).Some? ==>
      Find(WithBased(s, based).factors, name) == Find(s.factors, name)
    decreases |based|
  {
    if based != [] {
      var before, b := WithBased(s, based[..|based| - 1]), based[|based| - 1];
      WithBasedFacts(s, based[..|based| - 1]);
      forall name | Find(s.factors, name).Some?
        ensures Find(WithBased(s, based).factors, name) == Find(s.factors, name)
      {
        FindAfterPut(before.factors, b.artifact, name);
      }
    }
  }

  lemma {:induction false} StepExtendsBundles(s: Replay, r: Round)
    ensures s.bundles <= Step(s, r).bundles
  {
    if Accepted(r) {
      WithBasedFacts(s, r.snapshot.value.based);
    }
  }

  /** Replaying more rounds only appends bundles. */
  lemma {:induction false} BundlesOfPrefix(trace: Trace, n: nat)
    requires n <= |trace|
    ensures ReplayOf(trace[..n]).bundles <= ReplayOf(trace).bundles
    decreases |trace|
  {
    if n == |trace| {
      assert trace[..n] == trace;
    } else {
      var front := trace[..|trace| - 1];
      BundlesOfPrefix(front, n);
      assert front[..n] == trace[..n];
      StepExtendsBundles(ReplayOf(front), trace[|trace| - 1]);
    }
  }

  /** The last artifact of that name among `artifacts`. */
  function LastNamed(artifacts: seq<Artifact>, name: string): Option<Artifact> {
    if artifacts == [] then None
    else if artifacts[|artifacts| - 1].name == name then Some(artifacts[|artifacts| - 1])
    else LastNamed(artifacts[..|artifacts| - 1], name)
  }

  function FirstBasedFactor(based: seq<Based>, name: string): Option<Artifact> {
    if based == [] then None
    else
      var earlier := FirstBasedFactor(based[..|based| - 1], name);
      var b := based[|based| - 1];
      if earlier.Some? then earlier
      else if b.kind == Factor && b.artifact.name == name then Some(b.artifact) else None
  }

  function FirstBasedModel(based: seq<Based>): Option<Artifact> {
    if based == [] then None
    else
      var earlier := FirstBasedModel(based[..|based| - 1]);
      var b := based[|based| - 1];
      if earlier.Some? then earlier else if b.kind == Model then Some(b.artifact) else None
  }

  /** The latest accepted version of a factor, looking at accepted factor rounds only. */
  function LatestAcceptedFactor(trace: Trace, name: string): Option<Artifact> {
    if trace == [] then None
    else
      var r := trace[|trace| - 1];
      var here := if ContributesTo(r, Factor) then LastNamed(r.snapshot.value.artifacts, name) else None;
      if here.Some? then here else LatestAcceptedFactor(trace[..|trace| - 1], name)
  }

  function LatestAcceptedModel(trace: Trace): Option<Artifact> {
    if trace == [] then None
    else
      var r := trace[|trace| - 1];
      if ContributesTo(r, Model) then Some(r.snapshot.value.artifacts[0])
      else LatestAcceptedModel(trace[..|trace| - 1])
  }

  /** The earliest trusted counterpart of a factor, looking at based artifacts of accepted rounds only. */
  function EarliestBasedFactor(trace: Trace, name: string): Option<Artifact> {
    if trace == [] then None
    else
      var r := trace[|trace| - 1];
      var earlier := EarliestBasedFactor(trace[..|trace| - 1], name);
      if earlier.Some? then earlier
      else if Accepted(r) then FirstBasedFactor(r.snapshot.value.based, name) else None
  }

  function EarliestBasedModel(trace: Trace): Option<Artifact> {
    if trace == [] then None
    else
      var r := trace[|trace| - 1];
      var earlier := EarliestBasedModel(trace[..|trace| - 1]);
      if earlier.Some? then earlier
      else if Accepted(r) then FirstBasedModel(r.snapshot.value.based) else None
  }

  function OrElse(a: Option<Artifact>, b: Option<Artifact>): Option<Artifact> {
    if a.Some? then a else b
  }

  lemma {:induction false} WithBasedFind(s: Replay, based: seq<Based>, name: string)
    ensures Find(WithBased(s, based).factors, name) == OrElse(Find(s.factors, name), FirstBasedFactor(based, name))
    ensures WithBased(s, based).model == OrElse(s.model, FirstBasedModel(based))
    decreases |based|
  {
    if based != [] {
      WithBasedFind(s, based[..|based| - 1], name);
      FindAfterPut(WithBased(s, based[..|based| - 1]).factors, based[|based| - 1].artifact, name);
    }
  }

  lemma {:induction false} PutAllFind(registry: Registry, artifacts: seq<Artifact>, name: string)
    ensures Find(PutAll(registry, artifacts), name) == OrElse(LastNamed(artifacts, name), Find(registry, name))
    decreases |artifacts|
  {
    if artifacts != [] {
      PutAllFind(registry, artifacts[..|artifacts| - 1], name);
      FindAfterPut(PutAll(registry, artifacts[..|artifacts| - 1]), artifacts[|artifacts| - 1], name);
    }
  }

  /** The replay state: the latest accepted version of everything, and based artifacts only where nothing was
      accepted. */
  lemma {:induction false} ReplayHoldsLatest(trace: Trace, name: string)
    ensures Find(ReplayOf(trace).factors, name)
      == OrElse(LatestAcceptedFactor(trace, name), EarliestBasedFactor(trace, name))
    ensures ReplayOf(trace).model == OrElse(LatestAcceptedModel(trace), EarliestBasedModel(trace))
    decreases |trace|
  {
    if trace != [] {
      var front, r := trace[..|trace| - 1], trace[|trace| - 1];
      ReplayHoldsLatest(front, name);
      if Accepted(r) {
        var snapshot := r.snapshot.value;
        WithBasedFind(ReplayOf(front), snapshot.based, name);
        PutAllFind(WithBased(ReplayOf(front), snapshot.based).factors, snapshot.artifacts, name);
      }
    }
  }

  /** Every bundle was emitted by some round and holds that round's replay state. */
  lemma {:induction false} BundleOrigin(trace: Trace, b: Bundle) returns (n: nat)
    requires b in ReplayOf(trace).bundles
    ensures n < |trace| && Contributes(trace[n]) && trace[n].loopId == b.loopId
    ensures Ready(ReplayOf(trace[..n + 1]))
    ensures b.factors == Codes(ReplayOf(trace[..n + 1]).factors) && Some(b.model) == ReplayOf(trace[..n + 1]).model
    decreases |trace|
  {
    var front, r := trace[..|trace| - 1], trace[|trace| - 1];
    if b in ReplayOf(front).bundles {
      n := BundleOrigin(front, b);
      assert front[..n + 1] == trace[..n + 1];
    } else {
      n := |trace| - 1;
      assert trace[..n + 1] == trace;
      if Accepted(r) {
        WithBasedFacts(ReplayOf(front), r.snapshot.value.based);
      }
    }
  }

  ghost predicate NamesMatch(registry: Registry) {
    && (forall k :: 0 <= k < |registry| ==> registry[k].1.name == registry[k].0)
    && forall j, k :: 0 <= j < k < |registry| ==> registry[j].0 != registry[k].0
  }

  lemma {:induction false} PutKeepsNames(registry: Registry, a: Artifact)
    requires NamesMatch(registry)
    ensures NamesMatch(Put(registry, a)) && Put(registry, a) != []
    ensures forall k :: 0 <= k < |Put(registry, a)| ==>
      Put(registry, a)[k].0 == a.name || exists j :: 0 <= j < |registry| && registry[j].0 == Put(registry, a)[k].0
    decreases |registry|
  {
    if registry != [] && registry[0].0 != a.name {
      PutKeepsNames(registry[1..], a);
    }
  }

  lemma {:induction false} FindInRegistry(registry: Registry, k: nat)
    requires NamesMatch(registry) && k < |registry|
    ensures Find(registry, registry[k].0) == Some(registry[k].1)
    decreases |registry|
  {
    if k > 0 {
      FindInRegistry(registry[1..], k - 1);
    }
  }

  lemma {:induction false} FoundInRegistry(registry: Registry, name: string) returns (k: nat)
    requires Find(registry, name).Some?
    ensures k < |registry| && registry[k].0 == name && Find(registry, name) == Some(registry[k].1)
    decreases |registry|
  {
    if registry[0].0 == name {
      k := 0;
    } else {
      k := FoundInRegistry(registry[1..], name);
      k := k + 1;
    }
  }

  lemma {:induction false} WithBasedKeepsNames(s: Replay, based: seq<Based>)
    requires NamesMatch(s.factors)
    ensures NamesMatch(WithBased(s, based).factors)
    decreases |based|
  {
    if based != [] {
      WithBasedKeepsNames(s, based[..|based| - 1]);
      PutKeepsNames(WithBased(s, based[..|based| - 1]).factors, based[|based| - 1].artifact);
    }
  }

  lemma {:induction false} PutAllKeepsNames(registry: Registry, artifacts: seq<Artifact>)
    requires NamesMatch(registry)
    ensures NamesMatch(PutAll(registry, artifacts)) && (artifacts != [] ==> PutAll(registry, artifacts) != [])
    decreases |artifacts|
  {
    if artifacts != [] {
      PutAllKeepsNames(registry, artifacts[..|artifacts| - 1]);
      PutKeepsNames(PutAll(registry, artifacts[..|artifacts| - 1]), artifacts[|artifacts| - 1]);
    }
  }

  lemma {:induction false} ReplayKeepsNames(trace: Trace)
    ensures NamesMatch(ReplayOf(trace).factors)
    decreases |trace|
  {
    if trace != [] {
      var front, r := trace[..|trace| - 1], trace[|trace| - 1];
      ReplayKeepsNames(front);
      if Accepted(r) {
        WithBasedKeepsNames(ReplayOf(front), r.snapshot.value.based);
        PutAllKeepsNames(WithBased(ReplayOf(front), r.snapshot.value.based).factors, r.snapshot.value.artifacts);
      }
    }
  }

  /** A bundle holds exactly the latest accepted version of every factor and of the model up to its own loop, with
      the earliest based artifact wherever nothing was accepted: no factor is missing, stale or doubled. */
  lemma {:induction false} BundleHoldsLatest(trace: Trace, b: Bundle, name: string) returns (n: nat)
    requires b in ReplayOf(trace).bundles
    ensures n < |trace| && trace[n].loopId == b.loopId
    ensures LastNamed(b.factors, name)
      == OrElse(LatestAcceptedFactor(trace[..n + 1], name), EarliestBasedFactor(trace[..n + 1], name))
    ensures forall j, k :: 0 <= j < k < |b.factors| ==> b.factors[j].name != b.factors[k].name
    ensures Some(b.model) == OrElse(LatestAcceptedModel(trace[..n + 1]), EarliestBasedModel(trace[..n + 1]))
  {
    n := BundleOrigin(trace, b);
    ReplayHoldsLatest(trace[..n + 1], name);
    ReplayKeepsNames(trace[..n + 1]);
    NamedInCodes(ReplayOf(trace[..n + 1]).factors, name);
  }

  lemma {:induction false} LastNamedAt(artifacts: seq<Artifact>, name: string)
    ensures LastNamed(artifacts, name).None? <==> forall k :: 0 <= k < |artifacts| ==> artifacts[k].name != name
    ensures LastNamed(artifacts, name).Some? ==>
      exists k :: 0 <= k < |artifacts| && artifacts[k].name == name && LastNamed(artifacts, name) == Some(artifacts[k])
    decreases |artifacts|
  {
    if artifacts != [] {
      LastNamedAt(artifacts[..|artifacts| - 1], name);
    }
  }

  lemma {:induction false} NamedInCodes(registry: Registry, name: string)
    requires NamesMatch(registry)
    ensures LastNamed(Codes(registry), name) == Find(registry, name)
  {
    var codes := Codes(registry);
    LastNamedAt(codes, name);
    if Find(registry, name).Some? {
      var k := FoundInRegistry(registry, name);
      assert codes[k].name == name;
    }
    if LastNamed(codes, name).Some? {
      var k :| 0 <= k < |codes| && codes[k].name == name && LastNamed(codes, name) == Some(codes[k]);
      FindInRegistry(registry, k);
    }
  }

  // ----- bundles against coverage -----

  /** All snapshots of the trace were frozen from runner results. */
  ghost predicate FrozenTrace(trace: Trace) {
    forall k :: 0 <= k < |trace| && trace[k].snapshot.Some? ==> Executable(trace[k].snapshot.value)
  }

  ghost predicate SomeContribution(trace: Trace, kind: Kind) {
    exists k :: 0 <= k < |trace| && ContributesTo(trace[k], kind)
  }

  lemma {:induction false} ArmsAreContributions(trace: Trace)
    ensures forall kind :: kind in ReplayOf(trace).arms <==> SomeContribution(trace, kind)
    ensures Factor in ReplayOf(trace).arms ==> ReplayOf(trace).factors != []
    ensures Model in ReplayOf(trace).arms ==> ReplayOf(trace).model.Some?
    decreases |trace|
  {
    if trace != [] {
      var front, r := trace[..|trace| - 1], trace[|trace| - 1];
      ArmsAreContributions(front);
      forall kind
        ensures SomeContribution(trace, kind) <==> SomeContribution(front, kind) || ContributesTo(r, kind)
      {
        ContributionSplit(trace, kind);
      }
      if Accepted(r) {
        var s, based := ReplayOf(front), r.snapshot.value.based;
        WithBasedFacts(s, based);
        if s.factors != [] {
          WithBasedKeepsFactors(s, based);
        }
        ReplayKeepsNames(front);
        WithBasedKeepsNames(s, based);
        PutAllKeepsNames(WithBased(s, based).factors, r.snapshot.value.artifacts);
      }
    }
  }

  lemma {:induction false} WithBasedKeepsFactors(s: Replay, based: seq<Based>)
    requires s.factors != []
    ensures WithBased(s, based).factors != []
    decreases |based|
  {
    if based != [] {
      WithBasedKeepsFactors(s, based[..|based| - 1]);
    }
  }

  lemma {:induction false} ContributionSplit(trace: Trace, kind: Kind)
    requires trace != []
    ensures SomeContribution(trace, kind) <==>
      SomeContribution(trace[..|trace| - 1], kind) || ContributesTo(trace[|trace| - 1], kind)
  {
    var front := trace[..|trace| - 1];
    if SomeContribution(front, kind) {
      var k :| 0 <= k < |front| && ContributesTo(front[k], kind);
      assert ContributesTo(trace[k], kind);
    }
    if SomeContribution(trace, kind) {
      var k :| 0 <= k < |trace| && ContributesTo(trace[k], kind);
      if k < |front| {
        assert ContributesTo(front[k], kind);
      }
    }
  }

  ghost predicate CodesPresent(s: Replay) {
    && (forall k :: 0 <= k < |s.factors| ==> !Blank(s.factors[k].1.code))
    && (s.model.Some? ==> !Blank(s.model.value.code))
  }

  lemma {:induction false} PutKeepsCodes(registry: Registry, a: Artifact)
    requires !Blank(a.code) && forall k :: 0 <= k < |registry| ==> !Blank(registry[k].1.code)
    ensures forall k :: 0 <= k < |Put(registry, a)| ==> !Blank(Put(registry, a)[k].1.code)
    decreases |registry|
  {
    hide Blank;
    if registry != [] && registry[0].0 != a.name {
      PutKeepsCodes(registry[1..], a);
    }
  }

  lemma {:induction false} WithBasedKeepsCodes(s: Replay, based: seq<Based>)
    requires CodesPresent(s) && forall k :: 0 <= k < |based| ==> !Blank(based[k].artifact.code)
    ensures CodesPresent(WithBased(s, based))
    decreases |based|
  {
    hide Blank;
    if based != [] {
      WithBasedKeepsCodes(s, based[..|based| - 1]);
      PutKeepsCodes(WithBased(s, based[..|based| - 1]).factors, based[|based| - 1].artifact);
    }
  }

  lemma {:induction false} PutAllKeepsCodes(registry: Registry, artifacts: seq<Artifact>)
    requires forall k :: 0 <= k < |registry| ==> !Blank(registry[k].1.code)
    requires forall k :: 0 <= k < |artifacts| ==> !Blank(artifacts[k].code)
    ensures forall k :: 0 <= k < |PutAll(registry, artifacts)| ==> !Blank(PutAll(registry, artifacts)[k].1.code)
    decreases |artifacts|
  {
    hide Blank;
    if artifacts != [] {
      PutAllKeepsCodes(registry, artifacts[..|artifacts| - 1]);
      PutKeepsCodes(PutAll(registry, artifacts[..|artifacts| - 1]), artifacts[|artifacts| - 1]);
    }
  }

  lemma {:induction false} FrozenReplayHasCode(trace: Trace)
    requires FrozenTrace(trace)
    ensures CodesPresent(ReplayOf(trace))
    decreases |trace|
  {
    hide Blank;
    if trace != [] {
      var front, r := trace[..|trace| - 1], trace[|trace| - 1];
      assert forall k :: 0 <= k < |front| ==> front[k] == trace[k];
      FrozenReplayHasCode(front);
      if Accepted(r) {
        WithBasedKeepsCodes(ReplayOf(front), r.snapshot.value.based);
        PutAllKeepsCodes(WithBased(ReplayOf(front), r.snapshot.value.based).factors, r.snapshot.value.artifacts);
      }
    }
  }

  /** On frozen traces a round emits a bundle exactly when it contributes and both arms have contributed by then. */
  lemma {:induction false} EmitsExactly(trace: Trace, n: nat)
    requires FrozenTrace(trace) && n < |trace|
    ensures
      var before, after := ReplayOf(trace[..n]).bundles, ReplayOf(trace[..n + 1]).bundles;
      if Contributes(trace[n]) && SomeContribution(trace[..n + 1], Factor) && SomeContribution(trace[..n + 1], Model)
      then |after| == |before| + 1 && after[..|before|] == before && after[|before|].loopId == trace[n].loopId
      else after == before
  {
    var upTo, r := trace[..n + 1], trace[n];
    assert upTo[..n] == trace[..n];
    assert forall k :: 0 <= k < |upTo| ==> upTo[k] == trace[k];
    ArmsAreContributions(upTo);
    FrozenReplayHasCode(upTo);
    var s := ReplayOf(trace[..n]);
    if Accepted(r) {
      WithBasedFacts(s, r.snapshot.value.based);
    }
    assert ReplayOf(upTo).arms == {Factor, Model} <==> Factor in ReplayOf(upTo).arms && Model in ReplayOf(upTo).arms;
  }

  lemma {:induction false} EmptyExactly(trace: Trace)
    requires FrozenTrace(trace)
    ensures ReplayOf(trace).bundles == [] <==> !(SomeContribution(trace, Factor) && SomeContribution(trace, Model))
    decreases |trace|
  {
    if trace != [] {
      var front := trace[..|trace| - 1];
      assert forall k :: 0 <= k < |front| ==> front[k] == trace[k];
      EmptyExactly(front);
      EmitsExactly(trace, |trace| - 1);
      assert trace[..|trace|] == trace;
      ContributionSplit(trace, Factor);
      ContributionSplit(trace, Model);
    }
  }

  /** On frozen traces the accepted coverage speaks of any accepted round; contributions ask for one model artifact. */
  lemma {:induction false} CoverageAgainstContributions(trace: Trace)
    ensures RoundsOf(trace, Factor).accepted != [] <==> SomeContribution(trace, Factor)
    ensures SomeContribution(trace, Model) ==> RoundsOf(trace, Model).accepted != []
  {
    LoopsWithEmpty(trace, Factor, AcceptedRun);
    LoopsWithEmpty(trace, Model, AcceptedRun);
    forall k | 0 <= k < |trace|
      ensures Marks(trace[k], Factor, AcceptedRun) <==> ContributesTo(trace[k], Factor)
      ensures ContributesTo(trace[k], Model) ==> Marks(trace[k], Model, AcceptedRun)
    {
    }
  }

  // ----- the research outcome -----

  datatype Outcome = JointProposalReady | AcceptanceIncomplete | AttemptIncomplete

  datatype OutcomeError = BundleEscapedCoverage | NoJointProposal

  function ResearchOutcome(trace: Trace, bundles: seq<Bundle>): Result<Outcome, OutcomeError> {
    if bundles != [] then
      if !AcceptedComplete(trace) then Err(BundleEscapedCoverage) else Ok(JointProposalReady)
    else if AcceptedComplete(trace) then Err(NoJointProposal)
    else Ok(if AttemptedComplete(trace) then AcceptanceIncomplete else AttemptIncomplete)
  }

  /** A bundle never escapes complete accepted coverage.  The other error is raised exactly when the coverage is
      complete although no accepted model round holds a single artifact. */
  lemma {:induction false} OutcomeErrors(trace: Trace)
    requires FrozenTrace(trace)
    ensures
      var outcome := ResearchOutcome(trace, ReplayOf(trace).bundles);
      && outcome != Err(BundleEscapedCoverage)
      && (outcome == Err(NoJointProposal) <==> AcceptedComplete(trace) && !SomeContribution(trace, Model))
  {
    EmptyExactly(trace);
    CoverageAgainstContributions(trace);
  }

  /** Some round proposed the arm or ran it. */
  ghost predicate Tried(trace: Trace, kind: Kind) {
    exists r :: r in trace
      && (r.action == Some(ActionOf(kind)) || (r.snapshot.Some? && r.snapshot.value.kind == kind))
  }

  /** Some accepted round of the arm produced anything. */
  ghost predicate Succeeded(trace: Trace, kind: Kind) {
    exists r :: r in trace && Accepted(r) && r.snapshot.value.kind == kind && r.snapshot.value.artifacts != []
  }

  lemma {:induction false} CoverageMeans(trace: Trace, kind: Kind)
    ensures Tried(trace, kind) <==> RoundsOf(trace, kind).attempted != []
    ensures Succeeded(trace, kind) <==> RoundsOf(trace, kind).accepted != []
  {
    LoopsWithEmpty(trace, kind, Attempted);
    LoopsWithEmpty(trace, kind, AcceptedRun);
    if RoundsOf(trace, kind).attempted != [] {
      var k :| 0 <= k < |trace| && Marks(trace[k], kind, Attempted);
      assert trace[k] in trace;
    }
    if RoundsOf(trace, kind).accepted != [] {
      var k :| 0 <= k < |trace| && Marks(trace[k], kind, AcceptedRun);
      assert trace[k] in trace;
    }
  }

  /** The outcome tells how far both arms got: both contributed, both were tried, or not even that. */
  lemma {:induction false} OutcomeExactly(trace: Trace)
    requires FrozenTrace(trace)
    ensures
      var outcome := ResearchOutcome(trace, ReplayOf(trace).bundles);
      && (outcome == Ok(JointProposalReady) <==> SomeContribution(trace, Factor) && SomeContribution(trace, Model))
      && (outcome == Ok(AcceptanceIncomplete) <==>
            && !(Succeeded(trace, Factor) && Succeeded(trace, Model))
            && Tried(trace, Factor) && Tried(trace, Model))
      && (outcome == Ok(AttemptIncomplete) <==> !(Tried(trace, Factor) && Tried(trace, Model)))
  {
    OutcomeErrors(trace);
    EmptyExactly(trace);
    CoverageAgainstContributions(trace);
    CoverageMeans(trace, Factor);
    CoverageMeans(trace, Model);
    assert forall kind :: Succeeded(trace, kind) ==> Tried(trace, kind);
    hide Tried, Succeeded, SomeContribution, RoundsOf, FrozenTrace;
  }

  /** With one artifact per accepted model round, complete coverage yields a bundle at the completing round and at
      every later contributing one, and the outcome is never an error. */
  lemma {:induction false} CompleteCoverageYieldsBundles(trace: Trace)
    requires FrozenTrace(trace)
    requires forall k :: 0 <= k < |trace| && Accepted(trace[k]) && trace[k].snapshot.value.kind == Model ==>
      |trace[k].snapshot.value.artifacts| == 1
    ensures AcceptedComplete(trace) <==> ReplayOf(trace).bundles != []
    ensures ResearchOutcome(trace, ReplayOf(trace).bundles).Ok?
    ensures forall n :: 0 <= n < |trace| && Accepted(trace[n]) && AcceptedComplete(trace[..n + 1]) ==>
      exists b :: b in ReplayOf(trace).bundles && b.loopId == trace[n].loopId
  {
    SingleModelsContribute(trace);
    EmptyExactly(trace);
    CoverageAgainstContributions(trace);
    forall n | 0 <= n < |trace| && Accepted(trace[n]) && AcceptedComplete(trace[..n + 1])
      ensures exists b :: b in ReplayOf(trace).bundles && b.loopId == trace[n].loopId
    {
      var upTo := trace[..n + 1];
      assert forall k :: 0 <= k < |upTo| ==> upTo[k] == trace[k];
      SingleModelsContribute(upTo);
      CoverageAgainstContributions(upTo);
      EmitsExactly(trace, n);
      BundlesOfPrefix(trace, n + 1);
      var b := ReplayOf(upTo).bundles[|ReplayOf(trace[..n]).bundles|];
      assert b in ReplayOf(trace).bundles;
    }
  }

  lemma {:induction false} SingleModelsContribute(trace: Trace)
    requires forall k :: 0 <= k < |trace| && Accepted(trace[k]) && trace[k].snapshot.value.kind == Model ==>
      |trace[k].snapshot.value.artifacts| == 1
    ensures SomeContribution(trace, Model) <==> RoundsOf(trace, Model).accepted != []
  {
    LoopsWithEmpty(trace, Model, AcceptedRun);
    CoverageAgainstContributions(trace);
    if RoundsOf(trace, Model).accepted != [] {
      var k :| 0 <= k < |trace| && Marks(trace[k], Model, AcceptedRun);
      assert Accepted(trace[k]) && trace[k].snapshot.value.kind == Model;
      assert ContributesTo(trace[k], Model);
    }
  }

  /** Two accepted rounds, one per arm, where the model round holds two artifacts: the error is reachable. */
  lemma {:induction false} TwoModelArtifactsRaise(code: string)
    requires !Blank(code)
    ensures
      var factor := Snapshot(Factor, [Artifact("f", code, 0)], []);
      var models := Snapshot(Model, [Artifact("m", code, 0), Artifact("n", code, 0)], []);
      var trace :=
        [Round(0, Some("factor"), Some(factor), Some(true)), Round(1, Some("model"), Some(models), Some(true))];
      FrozenTrace(trace) && ResearchOutcome(trace, ReplayOf(trace).bundles) == Err(NoJointProposal)
  {
    var factor := Snapshot(Factor, [Artifact("f", code, 0)], []);
    var models := Snapshot(Model, [Artifact("m", code, 0), Artifact("n", code, 0)], []);
    var trace :=
      [Round(0, Some("factor"), Some(factor), Some(true)), Round(1, Some("model"), Some(models), Some(true))];
    OutcomeErrors(trace);
    LoopsWithEmpty(trace, Factor, AcceptedRun);
    LoopsWithEmpty(trace, Model, AcceptedRun);
    assert Marks(trace[0], Factor, AcceptedRun) && Marks(trace[1], Model, AcceptedRun);
  }
}
