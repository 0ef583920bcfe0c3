/** The full validation grid of one quant bundle: the first joint cell is run once as a resource screen and reused in
    the grid; the first cell that does not pass ends the run.

    `execute` says what executing a cell leads to.  The log records every execution, in order.
 */
module ValidationGrid {
  import opened Values
  import opened TrialFamily

  datatype Profile = Recent3y | Balanced5y | Robust10y

  const SEEDS: seq<nat> := [11, 29, 47]

  datatype Cell = Cell(ablation: Ablation, profile: Profile, seed: nat)

  /** A cell passes or is resource-blocked, in some execution environment; or it raises. */
  datatype Outcome =
    | CellPassed(environment: string)
    | CellBlocked(environment: string)
    | CellRaised
    | BaselineUnsupported

  datatype AblationResult = AblationResult(visited: seq<Cell>, blocked: bool, environment: string)

  datatype GridError =
    | FirstCellFailed
    | CellFailed(cell: Cell)
    | UnsupportedBaseline
    | InconsistentEnvironments

  /** `screen` is the outcome of the first full cell; without `ablations` it was the one that was blocked. */
  datatype Grid = Grid(screen: Outcome, ablations: seq<AblationResult>)

  const FIRST: Cell := Cell(Joint, Balanced5y, 11)

  predicate Ran(o: Outcome) {
    o.CellPassed? || o.CellBlocked?
  }

  // ----- the order of the cells -----

  function SeedCells(a: Ablation, p: Profile): seq<Cell> {
    [Cell(a, p, 11), Cell(a, p, 29), Cell(a, p, 47)]
  }

  function AblationCells(a: Ablation, profiles: seq<Profile>): seq<Cell> {
    if profiles == [] then [] else AblationCells(a, profiles[..|profiles| - 1]) + SeedCells(a, profiles[|profiles| - 1])
  }

  /** Cells up to and including the first that does not pass. */
  function UpToStop(cells: seq<Cell>, execute: Cell -> Outcome): (visited: seq<Cell>)
    ensures visited <= cells
  {
    if cells == [] then []
    else
      var front := cells[..|cells| - 1];
      if forall c :: c in front ==> execute(c).CellPassed? then cells else UpToStop(front, execute)
  }

  function Environments(cells: seq<Cell>, execute: Cell -> Outcome): set<string> {
    set c | c in cells && Ran(execute(c)) :: execute(c).environment
  }

  ghost predicate AllPass(cells: seq<Cell>, execute: Cell -> Outcome) {
    forall c :: c in cells ==> execute(c).CellPassed?
  }

  /** A stopping cell ends the visit, whatever follows. */
  lemma {:induction false} StopsThere(cells: seq<Cell>, more: seq<Cell>, execute: Cell -> Outcome)
    requires cells != [] && AllPass(cells[..|cells| - 1], execute) && !execute(cells[|cells| - 1]).CellPassed?
    ensures UpToStop(cells + more, execute) == cells
    decreases |more|
  {
    if more == [] {
      assert cells + more == cells;
    } else {
      var whole := cells + more;
      assert whole[..|whole| - 1] == cells + more[..|more| - 1];
      assert cells[|cells| - 1] in whole[..|whole| - 1];
      StopsThere(cells, more[..|more| - 1], execute);
    }
  }

  lemma {:induction false} CellsExtend(a: Ablation, profiles: seq<Profile>, i: nat)
    requires i <= |profiles|
    ensures AblationCells(a, profiles[..i]) <= AblationCells(a, profiles)
    decreases |profiles| - i
  {
    if i < |profiles| {
      assert profiles[..i + 1][..i] == profiles[..i];
      CellsExtend(a, profiles, i + 1);
    } else {
      assert profiles[..i] == profiles;
    }
  }

  // ----- one ablation -----

  /** What running the cells of one ablation leads to. */
  function AblationOutcome(cells: seq<Cell>, execute: Cell -> Outcome): Result<AblationResult, GridError> {
    var visited := UpToStop(cells, execute);
    if visited == [] then Err(InconsistentEnvironments)
    else
      var last := visited[|visited| - 1];
      match execute(last)
      case CellRaised => Err(CellFailed(last))
      case BaselineUnsupported => Err(UnsupportedBaseline)
      case CellPassed(environment) =>
        if Environments(visited, execute) == {environment} then Ok(AblationResult(visited, false, environment))
        else Err(InconsistentEnvironments)
      case CellBlocked(environment) =>
        if Environments(visited, execute) == {environment} then Ok(AblationResult(visited, true, environment))
        else Err(InconsistentEnvironments)
  }

  /** The state of the loop before the next cell: everything visited has passed. */
  ghost predicate Running(visited: seq<Cell>, log: seq<Cell>, environments: set<string>, latest: string,
                          execute: Cell -> Outcome)
  {
    && AllPass(visited, execute) && log == Without(visited, FIRST) && environments == Environments(visited, execute)
    && (visited != [] ==> execute(visited[|visited| - 1]) == CellPassed(latest))
  }

  /** One more cell, run or reused. */
  lemma {:induction false} VisitedOne(visited: seq<Cell>, log: seq<Cell>, environments: set<string>, latest: string,
                                      execute: Cell -> Outcome, cell: Cell)
    requires Running(visited, log, environments, latest, execute)
    ensures Without(visited + [cell], FIRST) == log + if cell == FIRST then [] else [cell]
    ensures Ran(execute(cell)) ==> Environments(visited + [cell], execute) == environments + {execute(cell).environment}
    ensures execute(cell).CellPassed? ==>
      Running(visited + [cell], Without(visited + [cell], FIRST), environments + {execute(cell).environment},
              execute(cell).environment, execute)
  {
    WithoutOne(visited, FIRST, cell);
    EnvironmentsOne(visited, cell, execute);
    hide Without, Environments;
  }

  lemma {:induction false} EnvironmentsOne(visited: seq<Cell>, cell: Cell, execute: Cell -> Outcome)
    ensures Ran(execute(cell)) ==>
      Environments(visited + [cell], execute) == Environments(visited, execute) + {execute(cell).environment}
  {
    if Ran(execute(cell)) {
      var after := Environments(visited + [cell], execute);
      var split := Environments(visited, execute) + {execute(cell).environment};
      forall e | e in after
        ensures e in split
      {
        var c :| c in visited + [cell] && Ran(execute(c)) && execute(c).environment == e;
      }
      forall e | e in split
        ensures e in after
      {
        if e == execute(cell).environment {
          assert cell in visited + [cell];
        } else {
          var c :| c in visited && Ran(execute(c)) && execute(c).environment == e;
          assert c in visited + [cell];
        }
      }
    }
  }

  /** The visit ends at a cell that does not pass. */
  lemma {:induction false} StoppedAt(cells: seq<Cell>, visited: seq<Cell>, log: seq<Cell>, environments: set<string>,
                                     latest: string, execute: Cell -> Outcome, cell: Cell)
    requires Running(visited, log, environments, latest, execute)
    requires visited + [cell] <= cells && !execute(cell).CellPassed?
    ensures UpToStop(cells, execute) == visited + [cell]
  {
    var here := visited + [cell];
    assert here[..|here| - 1] == visited;
    assert here + cells[|here|..] == cells;
    hide Without, Environments;
    StopsThere(here, cells[|here|..], execute);
  }

  lemma {:induction false} RanThrough(cells: seq<Cell>, log: seq<Cell>, environments: set<string>, latest: string,
                                      execute: Cell -> Outcome)
    requires Running(cells, log, environments, latest, execute)
    ensures UpToStop(cells, execute) == cells
    ensures AblationOutcome(cells, execute) == Finish(cells, environments, latest, false)
  {
    hide Without;
    EnvironmentsAreOne(cells, execute, latest);
  }

  /** A visit whose last cell ran in `latest` is consistent exactly when that is its only environment. */
  lemma {:induction false} EnvironmentsAreOne(cells: seq<Cell>, execute: Cell -> Outcome, latest: string)
    requires cells != [] ==> Ran(execute(cells[|cells| - 1])) && execute(cells[|cells| - 1]).environment == latest
    ensures |Environments(cells, execute)| == 1 <==> cells != [] && Environments(cells, execute) == {latest}
  {
    var environments := Environments(cells, execute);
    if cells != [] {
      assert cells[|cells| - 1] in cells;
      assert latest in environments;
      if |environments| == 1 {
        assert |environments - {latest}| == 0;
      }
    }
  }

  /** What the loop returns when `cell` ends it. */
  function Stop(visited: seq<Cell>, environments: set<string>, cell: Cell, o: Outcome)
    : Result<AblationResult, GridError>
  {
    match o
    case CellRaised => Err(CellFailed(cell))
    case BaselineUnsupported => Err(UnsupportedBaseline)
    case CellPassed(environment) => Finish(visited, environments, environment, false)
    case CellBlocked(environment) => Finish(visited, environments, environment, true)
  }

  function Finish(visited: seq<Cell>, environments: set<string>, environment: string, blocked: bool):
    Result<AblationResult, GridError>
  {
    if |environments| != 1 then Err(InconsistentEnvironments) else Ok(AblationResult(visited, blocked, environment))
  }

  function LogOf(log: seq<Cell>, cell: Cell): seq<Cell> {
    if cell == FIRST then log else log + [cell]
  }

  lemma {:induction false} Stopping(cells: seq<Cell>, visited: seq<Cell>, log: seq<Cell>, environments: set<string>,
                                    latest: string, execute: Cell -> Outcome, cell: Cell)
    requires Running(visited, log, environments, latest, execute)
    requires visited + [cell] <= cells && !execute(cell).CellPassed?
    ensures Without(UpToStop(cells, execute), FIRST) == LogOf(log, cell)
    ensures AblationOutcome(cells, execute) ==
      Stop(visited + [cell], if Ran(execute(cell)) then environments + {execute(cell).environment} else {}, cell,
           execute(cell))
  {
    VisitedOne(visited, log, environments, latest, execute, cell);
    StoppedAt(cells, visited, log, environments, latest, execute, cell);
    hide UpToStop, Without, Running;
    if Ran(execute(cell)) {
      EnvironmentsAreOne(visited + [cell], execute, execute(cell).environment);
    }
    hide Environments;
  }

  /** Where one more cell leaves the loop: going on, or stopped with the result. */
  lemma {:induction false} AfterCell(cells: seq<Cell>, visited: seq<Cell>, log: seq<Cell>, environments: set<string>,
                                     latest: string, execute: Cell -> Outcome, cell: Cell)
    requires Running(visited, log, environments, latest, execute) && visited + [cell] <= cells
    ensures execute(cell).CellPassed? ==>
      Running(visited + [cell], LogOf(log, cell), environments + {execute(cell).environment},
              execute(cell).environment, execute)
    ensures !execute(cell).CellPassed? ==>
      && Without(UpToStop(cells, execute), FIRST) == LogOf(log, cell)
      && AblationOutcome(cells, execute) ==
         Stop(visited + [cell], if Ran(execute(cell)) then environments + {execute(cell).environment} else {}, cell,
              execute(cell))
  {
    VisitedOne(visited, log, environments, latest, execute, cell);
    if !execute(cell).CellPassed? {
      Stopping(cells, visited, log, environments, latest, execute, cell);
    }
    hide Running, Without, UpToStop, AblationOutcome, Environments;
  }

  lemma {:induction false} RowPrefix(a: Ablation, profiles: seq<Profile>, i: nat, j: nat)
    requires i < |profiles| && j < |SEEDS|
    ensures AblationCells(a, profiles[..i]) + SeedCells(a, profiles[i])[..j + 1] <= AblationCells(a, profiles)
    ensures AblationCells(a, profiles[..i + 1]) == AblationCells(a, profiles[..i]) + SeedCells(a, profiles[i])
    ensures SeedCells(a, profiles[i])[..j + 1] == SeedCells(a, profiles[i])[..j] + [Cell(a, profiles[i], SEEDS[j])]
  {
    assert profiles[..i + 1][..i] == profiles[..i];
    CellsExtend(a, profiles, i + 1);
  }

  method RunAblation(a: Ablation, profiles: seq<Profile>, execute: Cell -> Outcome, first: Option<Outcome>)
    returns (r: Result<AblationResult, GridError>, log: seq<Cell>)
    requires first.Some? <==> a == Joint
    requires first.Some? ==> first.value == execute(FIRST)
    ensures r == AblationOutcome(AblationCells(a, profiles), execute)
    ensures log == Without(UpToStop(AblationCells(a, profiles), execute), FIRST)
  {
    ghost var cells := AblationCells(a, profiles);
    var visited: seq<Cell> := [];
    var environments: set<string> := {};
    var latest: string := "";
    log := [];
    assert Running(visited, log, environments, latest, execute);
    hide Running, Without, UpToStop, Environments, AblationOutcome, SeedCells, Stop, Finish, AllPass;
    for i := 0 to |profiles|
      invariant visited == AblationCells(a, profiles[..i])
      invariant Running(visited, log, environments, latest, execute)
    {
      var p := profiles[i];
      ghost var row := visited;
      RowPrefix(a, profiles, i, 0);
      hide AblationCells;
      for j := 0 to |SEEDS|
        invariant visited == row + SeedCells(a, p)[..j]
        invariant Running(visited, log, environments, latest, execute)
      {
        var cell := Cell(a, p, SEEDS[j]);
        RowPrefix(a, profiles, i, j);
        assert row + SeedCells(a, p)[..j + 1] == visited + [cell];
        var outcome: Outcome;
        AfterCell(cells, visited, log, environments, latest, execute, cell);
        ghost var before := log;
        if first.Some? && p == Balanced5y && SEEDS[j] == SEEDS[0] {
          outcome := first.value;
        } else {
          outcome := execute(cell);
          log := log + [cell];
        }
        assert outcome == execute(cell) && log == LogOf(before, cell);
        hide LogOf;
        visited := visited + [cell];
        if !Ran(outcome) {
          r := Stop(visited, {}, cell, outcome);
          return;
        }
        environments := environments + {outcome.environment};
        latest := outcome.environment;
        if outcome.CellBlocked? {
          r := Stop(visited, environments, cell, outcome);
          return;
        }
      }
      assert SeedCells(a, p)[..|SEEDS|] == SeedCells(a, p) by {
        RowPrefix(a, profiles, i, 2);
      }
    }
    assert profiles[..|profiles|] == profiles;
    RanThrough(cells, log, environments, latest, execute);
    r := Finish(visited, environments, latest, false);
  }

  // ----- the whole grid -----

  datatype Run = Run(result: Result<seq<AblationResult>, GridError>, log: seq<Cell>)

  /** The ablations from number `k` on. */
  function RunFrom(k: nat, profiles: seq<Profile>, execute: Cell -> Outcome): Run
    requires k <= |REQUIRED_ABLATIONS|
    decreases |REQUIRED_ABLATIONS| - k
  {
    if k == |REQUIRED_ABLATIONS| then Run(Ok([]), [])
    else
      var cells := AblationCells(REQUIRED_ABLATIONS[k], profiles);
      var executed := Without(UpToStop(cells, execute), FIRST);
      match AblationOutcome(cells, execute)
      case Err(e) => Run(Err(e), executed)
      case Ok(ablation) =>
        if ablation.blocked then Run(Ok([ablation]), executed)
        else Prepend(ablation, executed, RunFrom(k + 1, profiles, execute))
  }

  function Prepend(ablation: AblationResult, executed: seq<Cell>, rest: Run): Run {
    Run(match rest.result case Ok(more) => Ok([ablation] + more) case Err(e) => Err(e), executed + rest.log)
  }

  function Append(done: seq<AblationResult>, log: seq<Cell>, rest: Run): Run {
    Run(match rest.result case Ok(more) => Ok(done + more) case Err(e) => Err(e), log + rest.log)
  }

  lemma {:induction false} AppendPrepend(done: seq<AblationResult>, log: seq<Cell>, ablation: AblationResult,
                                         executed: seq<Cell>, rest: Run)
    ensures Append(done, log, Prepend(ablation, executed, rest)) == Append(done + [ablation], log + executed, rest)
  {
    if rest.result.Ok? {
      assert done + ([ablation] + rest.result.value) == done + [ablation] + rest.result.value;
    }
    assert log + (executed + rest.log) == log + executed + rest.log;
  }

  lemma {:induction false} AppendNothing(rest: Run)
    ensures Append([], [], rest) == rest
  {
    if rest.result.Ok? {
      assert [] + rest.result.value == rest.result.value;
    }
    assert [] + rest.log == rest.log;
  }

  /** What the grid returns, and every cell it executes. */
  function GridRun(profiles: seq<Profile>, execute: Cell -> Outcome): (Result<Grid, GridError>, seq<Cell>) {
    var screen := execute(FIRST);
    if !Ran(screen) then (Err(FirstCellFailed), [FIRST])
    else if screen.CellBlocked? then (Ok(Grid(screen, [])), [FIRST])
    else
      var rest := RunFrom(0, profiles, execute);
      (match rest.result case Ok(ablations) => Ok(Grid(screen, ablations)) case Err(e) => Err(e), [FIRST] + rest.log)
  }

  method RunValidationGrid(profiles: seq<Profile>, execute: Cell -> Outcome)
    returns (r: Result<Grid, GridError>, log: seq<Cell>)
    ensures (r, log) == GridRun(profiles, execute)
  {
    hide AblationOutcome, AblationCells, UpToStop, Without;
    var screen := execute(FIRST);
    log := [FIRST];
    if !Ran(screen) {
      return Err(FirstCellFailed), log;
    }
    var ablations: seq<AblationResult> := [];
    if screen.CellBlocked? {
      return Ok(Grid(screen, ablations)), log;
    }
    ghost var all := RunFrom(0, profiles, execute);
    AppendNothing(all);
    ghost var later: seq<Cell> := [];
    for k := 0 to |REQUIRED_ABLATIONS|
      invariant log == [FIRST] + later
      invariant Append(ablations, later, RunFrom(k, profiles, execute)) == all
    {
      var name := REQUIRED_ABLATIONS[k];
      var ablation, executed := RunAblation(name, profiles, execute, if name == Joint then Some(screen) else None);
      log := log + executed;
      assert log == [FIRST] + (later + executed);
      if ablation.Err? {
        return Err(ablation.error), log;
      }
      AppendPrepend(ablations, later, ablation.value, executed, RunFrom(k + 1, profiles, execute));
      ablations, later := ablations + [ablation.value], later + executed;
      if ablation.value.blocked {
        return Ok(Grid(screen, ablations)), log;
      }
    }
    assert ablations + [] == ablations && later + [] == later;
    r := Ok(Grid(screen, ablations));
  }

  // ----- nothing runs after a cell that did not pass -----

  ghost predicate EndsAtStop(log: seq<Cell>, execute: Cell -> Outcome) {
    forall k :: 0 <= k < |log| - 1 ==> execute(log[k]).CellPassed?
  }

  lemma {:induction false} FreshIsIn(cells: seq<Cell>)
    ensures forall c :: c in Without(cells, FIRST) <==> c in cells && c != FIRST
  {
    if cells != [] {
      FreshIsIn(cells[..|cells| - 1]);
      assert cells == cells[..|cells| - 1] + [cells[|cells| - 1]];
    }
  }

  lemma {:induction false} VisitStops(cells: seq<Cell>, execute: Cell -> Outcome)
    ensures
      var visited := UpToStop(cells, execute);
      visited != [] ==> AllPass(visited[..|visited| - 1], execute)
    ensures UpToStop(cells, execute) != cells ==>
      var visited := UpToStop(cells, execute);
      visited != [] && !execute(visited[|visited| - 1]).CellPassed?
  {
    if cells != [] && !(forall c :: c in cells[..|cells| - 1] ==> execute(c).CellPassed?) {
      var front := cells[..|cells| - 1];
      VisitStops(front, execute);
      if UpToStop(front, execute) == front {
        var k :| 0 <= k < |front| && !execute(front[k]).CellPassed?;
        assert front[k] in front;
        if k < |front| - 1 {
          assert front[k] in front[..|front| - 1];
        }
      }
    }
  }

  /** Among the executed cells of one ablation, all but the last have passed, and all of them if it is not stopped. */
  lemma {:induction false} FreshStops(cells: seq<Cell>, execute: Cell -> Outcome)
    requires execute(FIRST).CellPassed?
    ensures EndsAtStop(Without(UpToStop(cells, execute), FIRST), execute)
    ensures AblationOutcome(cells, execute).Ok? && !AblationOutcome(cells, execute).value.blocked ==>
      UpToStop(cells, execute) == cells && AllPass(cells, execute) && AllPass(Without(cells, FIRST), execute)
  {
    var visited := UpToStop(cells, execute);
    VisitStops(cells, execute);
    if visited != [] {
      var front, last := visited[..|visited| - 1], visited[|visited| - 1];
      FreshIsIn(front);
      FreshIsIn(cells);
      assert Without(visited, FIRST) == Without(front, FIRST) + if last == FIRST then [] else [last];
      assert visited == front + [last];
      if execute(last).CellPassed? {
        assert AllPass(visited, execute);
      }
      hide UpToStop, Without, Environments;
      assert forall k :: 0 <= k < |Without(front, FIRST)| ==> Without(front, FIRST)[k] in Without(front, FIRST);
    }
  }

  lemma {:induction false} LaterStops(k: nat, profiles: seq<Profile>, execute: Cell -> Outcome)
    requires k <= |REQUIRED_ABLATIONS| && execute(FIRST).CellPassed?
    ensures EndsAtStop(RunFrom(k, profiles, execute).log, execute)
    decreases |REQUIRED_ABLATIONS| - k
  {
    if k < |REQUIRED_ABLATIONS| {
      var cells := AblationCells(REQUIRED_ABLATIONS[k], profiles);
      FreshStops(cells, execute);
      LaterStops(k + 1, profiles, execute);
      hide AblationCells, UpToStop, AblationOutcome, Without;
      var rest := RunFrom(k + 1, profiles, execute).log;
      if AblationOutcome(cells, execute).Ok? && !AblationOutcome(cells, execute).value.blocked {
        var executed := Without(UpToStop(cells, execute), FIRST);
        assert forall j :: 0 <= j < |executed| ==> executed[j] in Without(cells, FIRST);
        assert EndsAtStop(executed + rest, execute);
      }
    }
  }

  /** Whatever happens, the first joint cell runs first and nothing runs after a cell that did not pass. */
  lemma {:induction false} NothingAfterAStop(profiles: seq<Profile>, execute: Cell -> Outcome)
    ensures GridRun(profiles, execute).1 != [] && GridRun(profiles, execute).1[0] == FIRST
    ensures EndsAtStop(GridRun(profiles, execute).1, execute)
  {
    if execute(FIRST).CellPassed? {
      LaterStops(0, profiles, execute);
      hide RunFrom;
    }
  }

  // ----- the candidate's verdict -----

  datatype Verdict = PassedVerdict | ScreeningBlocked | ValidationBlocked | BaselineBlocked | FailedVerdict

  function GridEnvironments(g: Grid): set<string>
    requires Ran(g.screen)
  {
    {g.screen.environment} + set a | a in g.ablations :: a.environment
  }

  function VerdictOf(r: Result<Grid, GridError>): Verdict
    requires r.Ok? ==> Ran(r.value.screen)
  {
    match r
    case Err(UnsupportedBaseline) => BaselineBlocked
    case Err(_) => FailedVerdict
    case Ok(g) =>
      if |GridEnvironments(g)| != 1 then FailedVerdict
      else if g.screen.CellBlocked? then ScreeningBlocked
      else if exists a :: a in g.ablations && a.blocked then ValidationBlocked
      else PassedVerdict
  }

  /** Every cell has passed in environment `e`. */
  ghost predicate PassIn(cells: seq<Cell>, execute: Cell -> Outcome, e: string) {
    forall c :: c in cells ==> execute(c) == CellPassed(e)
  }

  /** Every cell of the ablations from number `k` on has passed in environment `e`. */
  ghost predicate GridPasses(k: nat, profiles: seq<Profile>, execute: Cell -> Outcome, e: string) {
    forall j :: k <= j < |REQUIRED_ABLATIONS| ==> PassIn(AblationCells(REQUIRED_ABLATIONS[j], profiles), execute, e)
  }

  ghost predicate CleanIn(ablations: seq<AblationResult>, e: string) {
    forall a :: a in ablations ==> !a.blocked && a.environment == e
  }

  lemma {:induction false} CleanAblation(cells: seq<Cell>, execute: Cell -> Outcome, e: string)
    requires cells != []
    ensures PassIn(cells, execute, e) <==> AblationOutcome(cells, execute) == Ok(AblationResult(cells, false, e))
  {
    if PassIn(cells, execute, e) {
      assert UpToStop(cells, execute) == cells;
      var last := cells[|cells| - 1];
      assert last in cells && Environments(cells, execute) == {e};
    }
    if AblationOutcome(cells, execute) == Ok(AblationResult(cells, false, e)) {
      VisitStops(cells, execute);
      var front, last := cells[..|cells| - 1], cells[|cells| - 1];
      assert cells == front + [last];
      hide UpToStop;
      forall c | c in cells
        ensures execute(c) == CellPassed(e)
      {
        assert execute(c).environment in Environments(cells, execute);
      }
    }
  }

  lemma {:induction false} CleanFrom(k: nat, profiles: seq<Profile>, execute: Cell -> Outcome, e: string)
    requires k <= |REQUIRED_ABLATIONS| && profiles != []
    ensures RunFrom(k, profiles, execute).result.Ok? && CleanIn(RunFrom(k, profiles, execute).result.value, e) <==>
      GridPasses(k, profiles, execute, e)
    decreases |REQUIRED_ABLATIONS| - k
  {
    if k < |REQUIRED_ABLATIONS| {
      var cells := AblationCells(REQUIRED_ABLATIONS[k], profiles);
      CleanFrom(k + 1, profiles, execute, e);
      GridPassesStep(k, profiles, execute, e);
      CleanAblation(cells, execute, e);
      FinishedIsWhole(cells, execute);
      hide AblationCells, AblationOutcome, UpToStop, Without, PassIn, GridPasses, CleanIn;
      var out, rest := AblationOutcome(cells, execute), RunFrom(k + 1, profiles, execute).result;
      if out.Ok? && out.value.blocked {
        CleanMore(out.value, [], e);
        assert [out.value] + [] == [out.value];
      } else if out.Ok? && rest.Ok? {
        CleanMore(out.value, rest.value, e);
      }
    }
  }

  lemma {:induction false} GridPassesStep(k: nat, profiles: seq<Profile>, execute: Cell -> Outcome, e: string)
    requires k < |REQUIRED_ABLATIONS|
    ensures GridPasses(k, profiles, execute, e) <==>
      PassIn(AblationCells(REQUIRED_ABLATIONS[k], profiles), execute, e) && GridPasses(k + 1, profiles, execute, e)
  {
    hide PassIn, AblationCells;
  }

  lemma {:induction false} CleanMore(a: AblationResult, rest: seq<AblationResult>, e: string)
    ensures CleanIn([a] + rest, e) <==> !a.blocked && a.environment == e && CleanIn(rest, e)
  {
    if CleanIn([a] + rest, e) {
      assert ([a] + rest)[0] == a;
      assert a in [a] + rest;
      assert forall b :: b in rest ==> b in [a] + rest;
    }
  }

  lemma {:induction false} FinishedIsWhole(cells: seq<Cell>, execute: Cell -> Outcome)
    ensures AblationOutcome(cells, execute).Ok? && !AblationOutcome(cells, execute).value.blocked ==>
      AblationOutcome(cells, execute).value.visited == cells
  {
    VisitStops(cells, execute);
    hide UpToStop, Environments;
  }

  /** A candidate passes exactly when every cell of every ablation passes in one and the same environment. */
  lemma {:induction false} PassesExactly(profiles: seq<Profile>, execute: Cell -> Outcome)
    requires Balanced5y in profiles
    ensures VerdictOf(GridRun(profiles, execute).0) == PassedVerdict <==>
      exists e :: GridPasses(0, profiles, execute, e)
  {
    FirstIsInGrid(profiles);
    var run, screen := RunFrom(0, profiles, execute).result, execute(FIRST);
    hide RunFrom, AblationCells, AblationOutcome, PassIn;
    if VerdictOf(GridRun(profiles, execute).0) == PassedVerdict {
      OneEnvironment(GridRun(profiles, execute).0.value);
      CleanFrom(0, profiles, execute, screen.environment);
    }
    if e :| GridPasses(0, profiles, execute, e) {
      CleanFrom(0, profiles, execute, e);
      assert PassIn(AblationCells(REQUIRED_ABLATIONS[2], profiles), execute, e);
      PassInHas(AblationCells(Joint, profiles), execute, e, FIRST);
      assert GridEnvironments(Grid(screen, run.value)) == {e};
    }
  }

  lemma {:induction false} PassInHas(cells: seq<Cell>, execute: Cell -> Outcome, e: string, c: Cell)
    requires PassIn(cells, execute, e) && c in cells
    ensures execute(c) == CellPassed(e)
  {
  }

  lemma {:induction false} OneEnvironment(g: Grid)
    requires Ran(g.screen) && |GridEnvironments(g)| == 1 && forall a :: a in g.ablations ==> !a.blocked
    ensures CleanIn(g.ablations, g.screen.environment)
  {
    var all := GridEnvironments(g);
    assert |all - {g.screen.environment}| == 0;
    forall a | a in g.ablations
      ensures a.environment == g.screen.environment
    {
      assert a.environment in all;
    }
  }

  lemma {:induction false} SeedCellsOf(a: Ablation, p: Profile, c: Cell)
    ensures multiset(SeedCells(a, p))[c] == if c.ablation == a && c.profile == p && c.seed in {11, 29, 47} then 1 else 0
    ensures c in SeedCells(a, p) <==> c.ablation == a && c.profile == p && c.seed in {11, 29, 47}
  {
    assert multiset(SeedCells(a, p)) == multiset{Cell(a, p, 11), Cell(a, p, 29), Cell(a, p, 47)};
  }

  lemma {:induction false} CellsOf(a: Ablation, profiles: seq<Profile>, c: Cell)
    ensures c in AblationCells(a, profiles) <==> c.ablation == a && c.profile in profiles && c.seed in {11, 29, 47}
    ensures c.seed in {11, 29, 47} ==>
      multiset(AblationCells(a, profiles))[c] == if c.ablation == a then multiset(profiles)[c.profile] else 0
  {
    if profiles != [] {
      var front, last := profiles[..|profiles| - 1], profiles[|profiles| - 1];
      CellsOf(a, front, c);
      SeedCellsOf(a, last, c);
      assert profiles == front + [last];
      assert AblationCells(a, profiles) == AblationCells(a, front) + SeedCells(a, last);
      hide SeedCells, AblationCells;
      CountedIn(AblationCells(a, front), SeedCells(a, last), c);
      ProfileCounted(front, last, c.profile);
    }
  }

  lemma {:induction false} CountedIn(a: seq<Cell>, b: seq<Cell>, c: Cell)
    ensures multiset(a + b)[c] == multiset(a)[c] + multiset(b)[c]
    ensures c in a + b <==> c in a || c in b
  {
  }

  lemma {:induction false} ProfileCounted(front: seq<Profile>, last: Profile, p: Profile)
    ensures multiset(front + [last])[p] == multiset(front)[p] + if last == p then 1 else 0
    ensures p in front + [last] <==> p in front || p == last
  {
  }

  lemma {:induction false} FirstIsInGrid(profiles: seq<Profile>)
    requires Balanced5y in profiles
    ensures FIRST in AblationCells(Joint, profiles)
  {
    CellsOf(Joint, profiles, FIRST);
  }

  // ----- each cell once -----

  lemma {:induction false} FreshCounts(cells: seq<Cell>, c: Cell)
    ensures multiset(Without(cells, FIRST))[c] == if c == FIRST then 0 else multiset(cells)[c]
  {
    if cells != [] {
      var front, last := cells[..|cells| - 1], cells[|cells| - 1];
      FreshCounts(front, c);
      assert cells == front + [last];
      assert multiset(cells)[c] == multiset(front)[c] + if last == c then 1 else 0;
      assert multiset(Without(cells, FIRST))[c]
          == multiset(Without(front, FIRST))[c] + if last == c && last != FIRST then 1 else 0;
    }
  }

  /** A passing run executes the first joint cell once, and every other cell once per occurrence of its profile: exactly
      once when the three governed profiles are listed without repetition. */
  lemma {:induction false} EachCellOnce(profiles: seq<Profile>, execute: Cell -> Outcome, c: Cell)
    requires Balanced5y in profiles && VerdictOf(GridRun(profiles, execute).0) == PassedVerdict
    requires c.seed in {11, 29, 47}
    ensures multiset(GridRun(profiles, execute).1)[c] == if c == FIRST then 1 else multiset(profiles)[c.profile]
  {
    PassesExactly(profiles, execute);
    var e :| GridPasses(0, profiles, execute, e);
    CleanLog(0, profiles, execute, e, c);
    hide RunFrom, PassIn, AblationCells;
    var log := RunFrom(0, profiles, execute).log;
    assert GridRun(profiles, execute).1 == [FIRST] + log;
  }

  function Later(k: nat, a: Ablation): bool {
    match a
    case FactorOnly => k <= 0
    case ModelOnly => k <= 1
    case Joint => k <= 2
  }

  lemma {:induction false} CleanLog(k: nat, profiles: seq<Profile>, execute: Cell -> Outcome, e: string, c: Cell)
    requires k <= |REQUIRED_ABLATIONS| && profiles != [] && c.seed in {11, 29, 47}
    requires GridPasses(k, profiles, execute, e)
    ensures multiset(RunFrom(k, profiles, execute).log)[c]
      == if c == FIRST || !Later(k, c.ablation) then 0 else multiset(profiles)[c.profile]
    decreases |REQUIRED_ABLATIONS| - k
  {
    if k < |REQUIRED_ABLATIONS| {
      var a := REQUIRED_ABLATIONS[k];
      var cells := AblationCells(a, profiles);
      GridPassesStep(k, profiles, execute, e);
      CleanLog(k + 1, profiles, execute, e, c);
      CellsOf(a, profiles, c);
      FreshCounts(cells, c);
      CellsOf(a, profiles, Cell(a, profiles[0], 11));
      CleanAblation(cells, execute, e);
      FinishedLog(cells, execute);
      hide AblationCells, AblationOutcome, UpToStop, Without, PassIn, GridPasses;
      assert a == FactorOnly <==> k == 0;
      assert a == ModelOnly <==> k == 1;
    }
  }

  lemma {:induction false} FinishedLog(cells: seq<Cell>, execute: Cell -> Outcome)
    ensures AblationOutcome(cells, execute).Ok? && !AblationOutcome(cells, execute).value.blocked ==>
      UpToStop(cells, execute) == cells
  {
    FinishedIsWhole(cells, execute);
    hide UpToStop;
  }

  // ----- what a stopped grid means -----

  lemma {:induction false} FreshLast(cells: seq<Cell>)
    requires cells != [] && cells[|cells| - 1] != FIRST
    ensures Without(cells, FIRST) != [] && Without(cells, FIRST)[|Without(cells, FIRST)| - 1] == cells[|cells| - 1]
  {
  }

  /** What the last executed cell says about the ablations from number `k` on. */
  ghost predicate Decides(run: Run, execute: Cell -> Outcome) {
    if run.log == [] || execute(run.log[|run.log| - 1]).CellPassed? then
      match run.result
      case Ok(ablations) => forall a :: a in ablations ==> !a.blocked
      case Err(e) => e == InconsistentEnvironments
    else
      var last := run.log[|run.log| - 1];
      match execute(last)
      case CellRaised => run.result == Err(CellFailed(last))
      case BaselineUnsupported => run.result == Err(UnsupportedBaseline)
      case _ =>
        match run.result
        case Ok(ablations) => exists a :: a in ablations && a.blocked
        case Err(e) => e == InconsistentEnvironments
  }

  /** One stopped ablation. */
  lemma {:induction false} StoppedAblation(cells: seq<Cell>, execute: Cell -> Outcome)
    requires cells != [] && execute(FIRST).CellPassed?
    ensures
      var visited, out := UpToStop(cells, execute), AblationOutcome(cells, execute);
      && visited != []
      && (execute(visited[|visited| - 1]).CellPassed? ==>
           out == Err(InconsistentEnvironments) || (out.Ok? && !out.value.blocked))
      && (!execute(visited[|visited| - 1]).CellPassed? ==>
           Without(visited, FIRST) != []
           && Without(visited, FIRST)[|Without(visited, FIRST)| - 1] == visited[|visited| - 1]
           && Decides(Run(match out case Ok(a) => Ok([a]) case Err(e) => Err(e), Without(visited, FIRST)), execute))
  {
    VisitStops(cells, execute);
    var visited, out := UpToStop(cells, execute), AblationOutcome(cells, execute);
    var last := visited[|visited| - 1];
    if !execute(last).CellPassed? {
      FreshLast(visited);
      hide UpToStop, Without, Environments;
      if out.Ok? {
        assert out.value in [out.value];
      }
    }
  }

  /** An ablation that ran through leaves the decision to the later ones. */
  lemma {:induction false} GoesOn(a: AblationResult, executed: seq<Cell>, rest: Run, execute: Cell -> Outcome)
    requires !a.blocked && Decides(rest, execute) && AllPass(executed, execute)
    ensures Decides(Prepend(a, executed, rest), execute)
  {
    var run := Prepend(a, executed, rest);
    if rest.log != [] {
      assert run.log[|run.log| - 1] == rest.log[|rest.log| - 1];
    } else if executed != [] {
      assert run.log[|run.log| - 1] == executed[|executed| - 1];
      assert executed[|executed| - 1] in executed;
    }
    if rest.result.Ok? {
      assert run.result.value == [a] + rest.result.value;
      assert forall b :: b in run.result.value <==> b == a || b in rest.result.value;
    }
  }

  lemma {:induction false} PassedThrough(visited: seq<Cell>, execute: Cell -> Outcome)
    requires visited != [] ==> AllPass(visited[..|visited| - 1], execute)
    ensures visited != [] && execute(visited[|visited| - 1]).CellPassed? ==> AllPass(Without(visited, FIRST), execute)
    ensures visited != [] && execute(visited[|visited| - 1]).CellPassed? && Without(visited, FIRST) != [] ==>
      execute(Without(visited, FIRST)[|Without(visited, FIRST)| - 1]).CellPassed?
  {
    FreshIsIn(visited);
    if visited != [] {
      assert visited == visited[..|visited| - 1] + [visited[|visited| - 1]];
    }
    if Without(visited, FIRST) != [] {
      assert Without(visited, FIRST)[|Without(visited, FIRST)| - 1] in Without(visited, FIRST);
    }
  }

  function Lone(out: Result<AblationResult, GridError>, executed: seq<Cell>): Run {
    Run(match out case Ok(a) => Ok([a]) case Err(e) => Err(e), executed)
  }

  /** One ablation either runs through or decides. */
  lemma {:induction false} OneAblation(cells: seq<Cell>, execute: Cell -> Outcome)
    requires cells != [] && execute(FIRST).CellPassed?
    ensures
      var out, executed := AblationOutcome(cells, execute), Without(UpToStop(cells, execute), FIRST);
      if out.Ok? && !out.value.blocked then AllPass(executed, execute) else Decides(Lone(out, executed), execute)
  {
    StoppedAblation(cells, execute);
    VisitStops(cells, execute);
    FreshStops(cells, execute);
    PassedThrough(UpToStop(cells, execute), execute);
    hide UpToStop, AblationOutcome, Without;
  }

  lemma {:induction false} LastDecides(k: nat, profiles: seq<Profile>, execute: Cell -> Outcome)
    requires k <= |REQUIRED_ABLATIONS| && profiles != [] && execute(FIRST).CellPassed?
    ensures Decides(RunFrom(k, profiles, execute), execute)
    decreases |REQUIRED_ABLATIONS| - k
  {
    if k < |REQUIRED_ABLATIONS| {
      var a := REQUIRED_ABLATIONS[k];
      var cells := AblationCells(a, profiles);
      CellsOf(a, profiles, Cell(a, profiles[0], 11));
      OneAblation(cells, execute);
      LastDecides(k + 1, profiles, execute);
      hide AblationCells, UpToStop, AblationOutcome, Without, Decides;
      var out, executed := AblationOutcome(cells, execute), Without(UpToStop(cells, execute), FIRST);
      if out.Ok? && !out.value.blocked {
        GoesOn(out.value, executed, RunFrom(k + 1, profiles, execute), execute);
      } else {
        assert RunFrom(k, profiles, execute) == Lone(out, executed);
      }
    } else {
      RunsOut(profiles, execute);
    }
  }

  lemma {:induction false} RunsOut(profiles: seq<Profile>, execute: Cell -> Outcome)
    ensures Decides(RunFrom(|REQUIRED_ABLATIONS|, profiles, execute), execute)
  {
  }

  /** Every executed cell ran, in one environment. */
  ghost predicate InOne(log: seq<Cell>, execute: Cell -> Outcome, e: string) {
    forall c :: c in log ==> Ran(execute(c)) && execute(c).environment == e
  }

  /** An ablation is in the environment of the first joint cell exactly when its own cells are. */
  lemma {:induction false} AblationInOne(cells: seq<Cell>, execute: Cell -> Outcome, e: string)
    requires cells != [] && execute(FIRST) == CellPassed(e)
    ensures
      var out, executed := AblationOutcome(cells, execute), Without(UpToStop(cells, execute), FIRST);
      && (out.Ok? ==> (out.value.environment == e <==> InOne(executed, execute, e)))
      && (out == Err(InconsistentEnvironments) ==> !InOne(executed, execute, e))
  {
    VisitStops(cells, execute);
    var visited := UpToStop(cells, execute);
    FreshIsIn(visited);
    hide UpToStop, Without;
    var last := visited[|visited| - 1];
    if Ran(execute(last)) {
      VisitInOne(visited, execute, e);
    }
  }

  /** A visit whose cells all ran is consistent and in environment `e` exactly when all its fresh cells are. */
  lemma {:induction false} VisitInOne(visited: seq<Cell>, execute: Cell -> Outcome, e: string)
    requires visited != [] && execute(FIRST) == CellPassed(e) && forall c :: c in visited ==> Ran(execute(c))
    ensures Environments(visited, execute) == {e} <==> InOne(Without(visited, FIRST), execute, e)
  {
    FreshIsIn(visited);
    hide Without;
    var last := visited[|visited| - 1];
    assert execute(last).environment in Environments(visited, execute);
    if Environments(visited, execute) == {e} {
      forall c | c in Without(visited, FIRST)
        ensures execute(c).environment == e
      {
        assert execute(c).environment in Environments(visited, execute);
      }
    }
  }

  /** The ablations share environment `e` exactly when all their cells do. */
  ghost predicate Shares(run: Run, execute: Cell -> Outcome, e: string) {
    && (run.result.Ok? ==>
          (InOne(run.log, execute, e) <==> forall a :: a in run.result.value ==> a.environment == e))
    && (run.result == Err(InconsistentEnvironments) ==> !InOne(run.log, execute, e))
  }

  lemma {:induction false} SharesTogether(a: AblationResult, executed: seq<Cell>, rest: Run, execute: Cell -> Outcome,
                                          e: string)
    requires a.environment == e <==> InOne(executed, execute, e)
    requires Shares(rest, execute, e)
    ensures Shares(Prepend(a, executed, rest), execute, e)
  {
    var run := Prepend(a, executed, rest);
    assert InOne(run.log, execute, e) <==> InOne(executed, execute, e) && InOne(rest.log, execute, e);
    hide InOne;
    if rest.result.Ok? {
      assert forall b :: b in run.result.value <==> b == a || b in rest.result.value;
    }
  }

  lemma {:induction false} SharesAlone(out: Result<AblationResult, GridError>, executed: seq<Cell>,
                                       execute: Cell -> Outcome, e: string)
    requires out.Ok? ==> (out.value.environment == e <==> InOne(executed, execute, e))
    requires out == Err(InconsistentEnvironments) ==> !InOne(executed, execute, e)
    ensures Shares(Lone(out, executed), execute, e)
  {
    hide InOne;
    if out.Ok? {
      assert out.value in [out.value];
    }
  }

  lemma {:induction false} SharesNothing(execute: Cell -> Outcome, e: string)
    ensures Shares(Run(Ok([]), []), execute, e)
  {
  }

  lemma {:induction false} RunInOne(k: nat, profiles: seq<Profile>, execute: Cell -> Outcome, e: string)
    requires k <= |REQUIRED_ABLATIONS| && profiles != [] && execute(FIRST) == CellPassed(e)
    ensures Shares(RunFrom(k, profiles, execute), execute, e)
    decreases |REQUIRED_ABLATIONS| - k
  {
    if k < |REQUIRED_ABLATIONS| {
      var cells := AblationCells(REQUIRED_ABLATIONS[k], profiles);
      CellsOf(REQUIRED_ABLATIONS[k], profiles, Cell(REQUIRED_ABLATIONS[k], profiles[0], 11));
      AblationInOne(cells, execute, e);
      RunInOne(k + 1, profiles, execute, e);
      hide AblationCells, UpToStop, AblationOutcome, Without, InOne, Shares;
      var out, executed := AblationOutcome(cells, execute), Without(UpToStop(cells, execute), FIRST);
      if out.Ok? && !out.value.blocked {
        SharesTogether(out.value, executed, RunFrom(k + 1, profiles, execute), execute, e);
      } else {
        SharesAlone(out, executed, execute, e);
      }
    } else {
      SharesNothing(execute, e);
    }
  }

  lemma {:induction false} SharedEnvironment(first: Cell, later: seq<Cell>, execute: Cell -> Outcome, c: Cell)
    requires c in [first] + later && Ran(execute(first)) && Ran(execute(c))
    ensures InOne([first] + later, execute, execute(c).environment)
       <==> InOne(later, execute, execute(first).environment)
  {
    assert first in [first] + later;
  }

  lemma {:induction false} OneGridEnvironment(g: Grid)
    requires Ran(g.screen)
    ensures |GridEnvironments(g)| == 1 <==> forall a :: a in g.ablations ==> a.environment == g.screen.environment
  {
    var environments, e := GridEnvironments(g), g.screen.environment;
    assert e in environments;
    if |environments| == 1 {
      assert |environments - {e}| == 0;
      forall a | a in g.ablations
        ensures a.environment == e
      {
        assert a.environment in environments && a.environment !in environments - {e};
      }
    }
    if forall a :: a in g.ablations ==> a.environment == e {
      assert environments == {e};
    }
  }

  /** The verdict follows the last executed cell: a passed one passes and a blocked one blocks, at the screen or in the
      grid, unless environments were mixed; an unsupported baseline blocks except at the screen, where like any error it
      fails the candidate. */
  lemma {:induction false} VerdictFollowsLastCell(profiles: seq<Profile>, execute: Cell -> Outcome)
    requires profiles != []
    ensures
      var (result, log) := GridRun(profiles, execute);
      log != [] &&
      match execute(log[|log| - 1])
      case CellPassed(e) => VerdictOf(result) == if InOne(log, execute, e) then PassedVerdict else FailedVerdict
      case CellBlocked(e) =>
        VerdictOf(result) ==
        if |log| == 1 then ScreeningBlocked else if InOne(log, execute, e) then ValidationBlocked else FailedVerdict
      case CellRaised => VerdictOf(result) == FailedVerdict
      case BaselineUnsupported => VerdictOf(result) == if |log| == 1 then FailedVerdict else BaselineBlocked
  {
    var (result, log) := GridRun(profiles, execute);
    if execute(FIRST).CellPassed? {
      LastDecides(0, profiles, execute);
      RunInOne(0, profiles, execute, execute(FIRST).environment);
      hide RunFrom;
      var rest := RunFrom(0, profiles, execute);
      assert rest.log != [] ==> log[|log| - 1] == rest.log[|rest.log| - 1];
      assert rest.log == [] ==> log == [FIRST];
      if Ran(execute(log[|log| - 1])) {
        SharedEnvironment(FIRST, rest.log, execute, log[|log| - 1]);
      }
      if result.Ok? {
        OneGridEnvironment(result.value);
      }
      hide InOne, GridEnvironments;
    } else if execute(FIRST).CellBlocked? {
      assert GridEnvironments(Grid(execute(FIRST), [])) == {execute(FIRST).environment};
    }
  }
}
