/** The validation grid of one model candidate: the first cell is run as a feasibility screen and reused, the other
    cells run side by side, and their outcomes are consumed in order even after some of them have failed.
 */
module ModelBatch {
  import opened Values
  import CellScheduler
  import ValidationGrid

  datatype Cell = Cell(profile: ValidationGrid.Profile, seed: nat)

  /** What a committed cell gives once its result and its predictions have been verified. */
  datatype Outcome = Completed(environment: string) | ResourceLimited | Broken

  datatype Verdict = Passed(environment: string) | ResourceBlocked(cell: Cell) | Failed(cell: Cell)

  datatype BatchError = RunFailed(error: CellScheduler.RunError) | InconsistentEnvironments

  type Recorded = seq<(Cell, Outcome)>

  const FIRST: Cell := Cell(ValidationGrid.Balanced5y, 11)

  // ----- the cells and the calls -----

  function Row(p: ValidationGrid.Profile): seq<Cell> {
    [Cell(p, 11), Cell(p, 29), Cell(p, 47)]
  }

  function GridCells(profiles: seq<ValidationGrid.Profile>): seq<Cell> {
    if profiles == [] then [] else GridCells(profiles[..|profiles| - 1]) + Row(profiles[|profiles| - 1])
  }

  function Outcomes(cells: seq<Cell>, execute: Cell -> Outcome): Recorded {
    seq(|cells|, i requires 0 <= i < |cells| => (cells[i], execute(cells[i])))
  }

  /** The next outcome to be consumed belongs to the cell at hand, whatever happened to the cells before. */
  lemma {:induction false} Aligned(cells: seq<Cell>, visited: seq<Cell>, cell: Cell)
    requires visited + [cell] <= cells && cell != FIRST
    ensures |Without(visited, FIRST)| < |Without(cells, FIRST)|
    ensures Without(cells, FIRST)[|Without(visited, FIRST)|] == cell
    ensures |Without(visited + [cell], FIRST)| == |Without(visited, FIRST)| + 1
  {
    WithoutOne(visited, FIRST, cell);
    WithoutConcat(visited + [cell], cells[|visited| + 1..], FIRST);
    assert visited + [cell] + cells[|visited| + 1..] == cells;
    hide Without;
  }

  lemma {:induction false} RowsExtend(profiles: seq<ValidationGrid.Profile>, i: nat)
    requires i <= |profiles|
    ensures GridCells(profiles[..i]) <= GridCells(profiles)
    decreases |profiles| - i
  {
    if i < |profiles| {
      assert profiles[..i + 1][..i] == profiles[..i];
      RowsExtend(profiles, i + 1);
    } else {
      assert profiles[..i] == profiles;
    }
  }

  lemma {:induction false} RowAdded(profiles: seq<ValidationGrid.Profile>, i: nat)
    requires i < |profiles|
    ensures GridCells(profiles[..i + 1]) == GridCells(profiles[..i]) + Row(profiles[i])
    ensures GridCells(profiles[..i]) + Row(profiles[i]) <= GridCells(profiles)
  {
    assert profiles[..i + 1][..i] == profiles[..i];
    assert GridCells(profiles[..i + 1]) == GridCells(profiles[..i]) + Row(profiles[i]);
    hide GridCells, Row;
    RowsExtend(profiles, i + 1);
  }

  lemma {:induction false} PrefixOf(a: seq<Cell>, b: seq<Cell>, c: seq<Cell>, k: nat)
    requires a + b <= c && k <= |b|
    ensures a + b[..k] <= c
  {
    assert forall m :: 0 <= m < |a| + k ==> (a + b[..k])[m] == (a + b)[m];
  }

  lemma {:induction false} RowPrefix(profiles: seq<ValidationGrid.Profile>, i: nat, j: nat)
    requires i < |profiles| && j < 3
    ensures GridCells(profiles[..i]) + Row(profiles[i])[..j + 1] <= GridCells(profiles)
    ensures GridCells(profiles[..i + 1]) == GridCells(profiles[..i]) + Row(profiles[i])
    ensures Row(profiles[i])[..j + 1] == Row(profiles[i])[..j] + [Cell(profiles[i], ValidationGrid.SEEDS[j])]
  {
    RowAdded(profiles, i);
    RowSplit(profiles[i], j);
    assert |Row(profiles[i])| == 3;
    hide GridCells, Row;
    PrefixOf(GridCells(profiles[..i]), Row(profiles[i]), GridCells(profiles), j + 1);
  }

  lemma {:induction false} RowSplit(p: ValidationGrid.Profile, j: nat)
    requires j < 3
    ensures Row(p)[..j + 1] == Row(p)[..j] + [Cell(p, ValidationGrid.SEEDS[j])]
    ensures Row(p) == Row(p)[..j + 1] + Row(p)[j + 1..]
  {
  }

  // ----- the verdict -----

  /** The first cell, in grid order, that hit a resource limit, or that broke. */
  function FirstWith(recorded: Recorded, o: Outcome): Option<Cell> {
    if recorded == [] then None
    else
      var earlier := FirstWith(recorded[..|recorded| - 1], o);
      if earlier.Some? then earlier
      else if recorded[|recorded| - 1].1 == o then Some(recorded[|recorded| - 1].0)
      else None
  }

  function Environments(recorded: Recorded): set<string> {
    set r | r in recorded && r.1.Completed? :: r.1.environment
  }

  /** Blocked over failed over passed; a pass needs one common environment. */
  ghost predicate Judged(recorded: Recorded, r: Result<Verdict, BatchError>) {
    var limited, broken := FirstWith(recorded, ResourceLimited), FirstWith(recorded, Broken);
    if limited.Some? then r == Ok(ResourceBlocked(limited.value))
    else if broken.Some? then r == Ok(Failed(broken.value))
    else if |Environments(recorded)| != 1 then r == Err(InconsistentEnvironments)
    else r.Ok? && r.value.Passed? && Environments(recorded) == {r.value.environment}
  }

  /** The state of the loop before the next cell: it has consumed one outcome per call made for the visited cells. */
  ghost predicate Consumed(visited: seq<Cell>, execute: Cell -> Outcome, recorded: Recorded, position: nat,
                           limited: Option<Cell>, broken: Option<Cell>, environments: set<string>)
  {
    && recorded == Outcomes(visited, execute) && position == |Without(visited, FIRST)|
    && limited == FirstWith(recorded, ResourceLimited) && broken == FirstWith(recorded, Broken)
    && environments == Environments(recorded)
  }

  lemma {:induction false} ConsumedOne(visited: seq<Cell>, execute: Cell -> Outcome, recorded: Recorded, position: nat,
                                       limited: Option<Cell>, broken: Option<Cell>, environments: set<string>,
                                       cell: Cell, o: Outcome)
    requires Consumed(visited, execute, recorded, position, limited, broken, environments) && o == execute(cell)
    ensures Consumed(visited + [cell], execute, recorded + [(cell, o)],
                     if cell == FIRST then position else position + 1,
                     if limited.None? && o == ResourceLimited then Some(cell) else limited,
                     if broken.None? && o == Broken then Some(cell) else broken,
                     if o.Completed? then environments + {o.environment} else environments)
  {
    hide Without, Environments, Outcomes, FirstWith;
    WithoutOne(visited, FIRST, cell);
    OutcomesOne(visited, execute, cell);
    FirstWithOne(recorded, cell, o, ResourceLimited);
    FirstWithOne(recorded, cell, o, Broken);
    RecordedOne(recorded, cell, o);
  }

  lemma {:induction false} OutcomesOne(visited: seq<Cell>, execute: Cell -> Outcome, cell: Cell)
    ensures Outcomes(visited + [cell], execute) == Outcomes(visited, execute) + [(cell, execute(cell))]
  {
  }

  lemma {:induction false} FirstWithOne(recorded: Recorded, cell: Cell, o: Outcome, wanted: Outcome)
    ensures FirstWith(recorded + [(cell, o)], wanted)
      == if FirstWith(recorded, wanted).None? && o == wanted then Some(cell) else FirstWith(recorded, wanted)
  {
    assert (recorded + [(cell, o)])[..|recorded + [(cell, o)]| - 1] == recorded;
  }

  lemma {:induction false} RecordedOne(recorded: Recorded, cell: Cell, o: Outcome)
    ensures Environments(recorded + [(cell, o)])
      == if o.Completed? then Environments(recorded) + {o.environment} else Environments(recorded)
  {
    var more := recorded + [(cell, o)];
    var before, after := Environments(recorded), Environments(more);
    forall e | e in after
      ensures e in before || (o.Completed? && e == o.environment)
    {
      var r :| r in more && r.1.Completed? && r.1.environment == e;
    }
    forall e | e in before
      ensures e in after
    {
      var r :| r in recorded && r.1.Completed? && r.1.environment == e;
      assert r in more;
    }
    if o.Completed? {
      assert (cell, o) in more;
      assert o.environment in after;
    }
  }

  /** What running one call in its own process gives, if its process survives. */
  datatype Environment = Environment(execute: Cell -> Outcome, survives: Cell -> bool,
                                     allocation: Cell -> CellScheduler.Allocation, schedule: seq<set<nat>>)

  method EvaluateCandidate(profiles: seq<ValidationGrid.Profile>, world: Environment)
    returns (r: Result<Verdict, BatchError>, recorded: Recorded)
    ensures r.Err? && r.error.RunFailed? ==> world.execute(FIRST).Completed?
    ensures world.execute(FIRST) == ResourceLimited ==> r == Ok(ResourceBlocked(FIRST))
    ensures world.execute(FIRST) == Broken ==> r == Ok(Failed(FIRST))
    ensures world.execute(FIRST).Completed? && !(r.Err? && r.error.RunFailed?) ==>
      recorded == Outcomes(GridCells(profiles), world.execute) && Judged(recorded, r)
  {
    recorded := [];
    var screen := world.execute(FIRST);
    if screen == ResourceLimited {
      return Ok(ResourceBlocked(FIRST)), recorded;
    }
    if screen == Broken {
      return Ok(Failed(FIRST)), recorded;
    }
    var calls := Without(GridCells(profiles), FIRST);
    var receipts := seq(|calls|, i requires 0 <= i < |calls| =>
      if world.survives(calls[i]) then Some(world.execute(calls[i])) else None);
    var allocations := seq(|calls|, i requires 0 <= i < |calls| => world.allocation(calls[i]));
    var grid, launches, occupancy := CellScheduler.RunMany(allocations, receipts, world.schedule);
    if grid.Err? {
      return Err(RunFailed(grid.error)), recorded;
    }
    var outcomes := grid.value;
    assert forall i :: 0 <= i < |calls| ==> outcomes[i] == world.execute(calls[i]);
    var limited, broken, environments;
    recorded, limited, broken, environments := Consume(profiles, world.execute, screen, outcomes);
    r := Conclude(recorded, limited, broken, environments);
  }

  method Conclude(ghost recorded: Recorded, limited: Option<Cell>, broken: Option<Cell>, environments: set<string>)
    returns (r: Result<Verdict, BatchError>)
    requires limited == FirstWith(recorded, ResourceLimited) && broken == FirstWith(recorded, Broken)
    requires environments == Environments(recorded)
    ensures Judged(recorded, r)
    ensures !(r.Err? && r.error.RunFailed?)
  {
    hide FirstWith, Environments;
    if limited.Some? {
      r := Ok(ResourceBlocked(limited.value));
    } else if broken.Some? {
      r := Ok(Failed(broken.value));
    } else if |environments| != 1 {
      r := Err(InconsistentEnvironments);
    } else {
      var e :| e in environments;
      assert |environments - {e}| == 0;
      assert environments == {e};
      r := Ok(Passed(e));
    }
  }

  /** Walks the grid in order, handing every cell the outcome of the call that was made for it. */
  method Consume(profiles: seq<ValidationGrid.Profile>, ghost execute: Cell -> Outcome, screen: Outcome,
                 outcomes: seq<Outcome>)
    returns (recorded: Recorded, limited: Option<Cell>, broken: Option<Cell>, environments: set<string>)
    requires screen == execute(FIRST) && |outcomes| == |Without(GridCells(profiles), FIRST)|
    requires forall i :: 0 <= i < |outcomes| ==> outcomes[i] == execute(Without(GridCells(profiles), FIRST)[i])
    ensures recorded == Outcomes(GridCells(profiles), execute)
    ensures limited == FirstWith(recorded, ResourceLimited) && broken == FirstWith(recorded, Broken)
    ensures environments == Environments(recorded)
  {
    ghost var cells := GridCells(profiles);
    recorded := [];
    limited, broken, environments := None, None, {};
    var position := 0;
    ghost var visited: seq<Cell> := [];
    assert Consumed(visited, execute, recorded, position, limited, broken, environments);
    hide Consumed, Without, Row, FirstWith, Environments, Outcomes, Judged;
    for i := 0 to |profiles|
      invariant visited == GridCells(profiles[..i])
      invariant position == |Without(visited, FIRST)|
      invariant Consumed(visited, execute, recorded, position, limited, broken, environments)
    {
      var p := profiles[i];
      ghost var row := visited;
      RowPrefix(profiles, i, 0);
      hide GridCells;
      for j := 0 to |ValidationGrid.SEEDS|
        invariant visited == row + Row(p)[..j]
        invariant position == |Without(visited, FIRST)|
        invariant Consumed(visited, execute, recorded, position, limited, broken, environments)
      {
        var cell := Cell(p, ValidationGrid.SEEDS[j]);
        RowPrefix(profiles, i, j);
        assert row + Row(p)[..j + 1] == visited + [cell];
        WithoutOne(visited, FIRST, cell);
        var o := screen;
        if cell != FIRST {
          Aligned(cells, visited, cell);
          o := outcomes[position];
          position := position + 1;
        }
        ConsumedOne(visited, execute, recorded, |Without(visited, FIRST)|, limited, broken, environments, cell, o);
        recorded := recorded + [(cell, o)];
        match o {
          case Completed(environment) => environments := environments + {environment};
          case ResourceLimited => limited := if limited.None? then Some(cell) else limited;
          case Broken => broken := if broken.None? then Some(cell) else broken;
        }
        visited := visited + [cell];
      }
      assert Row(p)[..3] == Row(p) by {
        RowPrefix(profiles, i, 2);
      }
    }
    assert profiles[..|profiles|] == profiles;
    ConsumedFacts(visited, execute, recorded, position, limited, broken, environments);
  }

  lemma {:induction false} ConsumedFacts(visited: seq<Cell>, execute: Cell -> Outcome, recorded: Recorded,
                                         position: nat, limited: Option<Cell>, broken: Option<Cell>,
                                         environments: set<string>)
    requires Consumed(visited, execute, recorded, position, limited, broken, environments)
    ensures recorded == Outcomes(visited, execute)
    ensures limited == FirstWith(recorded, ResourceLimited) && broken == FirstWith(recorded, Broken)
    ensures environments == Environments(recorded)
  {
  }

  // ----- what the verdict means -----

  lemma {:induction false} FirstWithFinds(cells: seq<Cell>, execute: Cell -> Outcome, o: Outcome)
    ensures FirstWith(Outcomes(cells, execute), o).None? <==> forall c :: c in cells ==> execute(c) != o
    ensures FirstWith(Outcomes(cells, execute), o).Some? ==>
      var c := FirstWith(Outcomes(cells, execute), o).value;
      c in cells && execute(c) == o
  {
    if cells != [] {
      var front, last := cells[..|cells| - 1], cells[|cells| - 1];
      FirstWithFinds(front, execute, o);
      assert Outcomes(cells, execute)[..|cells| - 1] == Outcomes(front, execute);
      assert cells == front + [last];
    }
  }

  /** The candidate is blocked exactly when some cell hit a resource limit, failed exactly when none did but some cell
      broke, and passed in an environment exactly when every cell completed there. */
  lemma {:induction false} VerdictMeaning(profiles: seq<ValidationGrid.Profile>, execute: Cell -> Outcome,
                                          r: Result<Verdict, BatchError>, e: string)
    requires profiles != [] && Judged(Outcomes(GridCells(profiles), execute), r)
    ensures r.Ok? && r.value.ResourceBlocked? <==> exists c :: c in GridCells(profiles) && execute(c) == ResourceLimited
    ensures r.Ok? && r.value.Failed? <==>
      (forall c :: c in GridCells(profiles) ==> execute(c) != ResourceLimited)
      && exists c :: c in GridCells(profiles) && execute(c) == Broken
    ensures r == Ok(Passed(e)) <==> forall c :: c in GridCells(profiles) ==> execute(c) == Completed(e)
  {
    var cells := GridCells(profiles);
    var recorded := Outcomes(cells, execute);
    FirstWithFinds(cells, execute, ResourceLimited);
    FirstWithFinds(cells, execute, Broken);
    assert cells != [] by {
      assert |Row(profiles[|profiles| - 1])| == 3;
    }
    hide FirstWith, GridCells;
    assert cells[0] in cells;
    EnvironmentsOf(cells, execute, e);
    if forall c :: c in cells ==> execute(c).Completed? {
      if Environments(recorded) == {e} {
        assert |Environments(recorded)| == 1;
      }
    }
  }

  lemma {:induction false} EnvironmentsOf(cells: seq<Cell>, execute: Cell -> Outcome, e: string)
    requires cells != []
    ensures (forall c :: c in cells ==> execute(c) == Completed(e)) <==>
      (forall c :: c in cells ==> execute(c).Completed?) && Environments(Outcomes(cells, execute)) == {e}
  {
    var recorded := Outcomes(cells, execute);
    assert forall i :: 0 <= i < |cells| ==> recorded[i] == (cells[i], execute(cells[i]));
    if forall c :: c in cells ==> execute(c) == Completed(e) {
      assert recorded[0] in recorded && cells[0] in cells;
      forall f | f in Environments(recorded)
        ensures f == e
      {
        var r :| r in recorded && r.1.Completed? && r.1.environment == f;
        assert r.0 in cells;
      }
      assert recorded[0].1.environment in Environments(recorded);
    }
    if (forall c :: c in cells ==> execute(c).Completed?) && Environments(recorded) == {e} {
      forall c | c in cells
        ensures execute(c) == Completed(e)
      {
        var i :| 0 <= i < |cells| && cells[i] == c;
        assert recorded[i] in recorded;
        assert execute(c).environment in Environments(recorded);
      }
    }
  }
}
