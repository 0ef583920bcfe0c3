/** The two resumable stages of the clustering script: the factor-major matrix file and the daily accumulation.

    The output directory is an object whose fields are the durable files.  A process that works on it may be killed at
    any point: it is given a number of ticks, every durable write and every processed date costs one, and when none is
    left it stops where it is.  A kill inside a row write, or while the matrix file is being created, leaves
    arbitrary content there.
 */
module ResumablePipeline {
  import opened Values
  import opened RankCorrelation
  import opened DailyAccumulation

  datatype RowKey = RowKey(date: int, instrument: string)

  datatype Factor = Factor(index: seq<RowKey>, values: Column)

  /** What the manifest describes: one table per factor.  Its digest is injective, so it is its own fingerprint. */
  datatype Materialization = Materialization(factors: seq<Factor>) {
    /** Tables are non-ragged and there is at least one. */
    predicate WellFormed() {
      factors != [] && forall k :: 0 <= k < |factors| ==> |factors[k].values| == |factors[k].index|
    }

    function Index(): seq<RowKey>
      requires WellFormed()
    {
      factors[0].index
    }

    function RowCount(): nat
      requires WellFormed()
    {
      |Index()|
    }

    function Dates(): seq<int>
      requires WellFormed()
    {
      seq(RowCount(), k requires 0 <= k < RowCount() => Index()[k].date)
    }

    predicate Consistent()
      requires WellFormed()
    {
      Index() != [] && forall k :: 0 <= k < |factors| ==> factors[k].index == Index()
    }

    /** The complete factor-major matrix. */
    function Matrix(): Matrix
    {
      seq(|factors|, k requires 0 <= k < |factors| => factors[k].values)
    }
  }

  datatype Metadata = Metadata(
    fingerprint: Materialization, rowCount: nat, definitionCount: nat, dateCount: nat, nextFactor: nat)

  datatype Checkpoint = Checkpoint(fingerprint: Materialization, nextDate: nat, totals: Totals)

  datatype Failure = NoRows | OffsetsChanged | InvalidCheckpoint | IndexMismatch | ForeignCheckpoint

  datatype Outcome<+T> = Finished(value: T) | Killed | Failed(reason: Failure)

  /** How long a process lives. */
  datatype Life = Unlimited | Ticks(left: nat) {
    predicate Over() {
      this == Ticks(0)
    }

    function Tick(): Life
      requires !Over()
    {
      if Unlimited? then this else Ticks(left - 1)
    }
  }

  /** Between the two a process has spent at most so many ticks. */
  predicate Spends(start: Life, end: Life, most: nat) {
    if start.Unlimited? then end.Unlimited? else end.Ticks? && end.left <= start.left <= end.left + most
  }

  /** One launch of the script, with whatever a kill in the middle of a write leaves behind. */
  datatype Launch = Launch(life: Life, checkpointEvery: nat, tornFile: Option<Matrix>, tornRow: Column)

  /** The first `next` rows are complete. */
  ghost predicate RowsComplete(matrix: Matrix, m: Materialization, next: nat)
    requires m.WellFormed()
  {
    && |matrix| == |m.factors| && next <= |m.factors|
    && (forall k :: 0 <= k < |matrix| ==> |matrix[k]| == m.RowCount())
    && forall k :: 0 <= k < next ==> m.factors[k].index == m.Index() && matrix[k] == m.factors[k].values
  }

  lemma {:induction false} AllRowsComplete(matrix: Matrix, m: Materialization)
    requires m.WellFormed() && m.Index() != [] && RowsComplete(matrix, m, |m.factors|)
    ensures m.Consistent() && matrix == m.Matrix()
  {
  }

  lemma {:induction false} MatrixShaped(m: Materialization)
    requires m.WellFormed() && m.Consistent()
    ensures Shaped(m.Matrix(), DateOffsets(m.Dates()), m.RowCount())
  {
    assert m.Dates() != [];
    OffsetsIncrease(m.Dates());
    var changes := ChangePoints(m.Dates(), m.RowCount());
    assert forall a :: 0 <= a < |changes| ==> changes[a] in changes;
  }

  /** Exact totals of the materialization over its first `d` dates. */
  ghost predicate Exact(t: Totals, m: Materialization, root: real -> real, d: nat)
    requires m.WellFormed()
  {
    ExactTotals(t, m.Matrix(), DateOffsets(m.Dates()), m.RowCount(), root, d)
  }

  class OutputDirectory {
    var matrix: Option<Matrix>
    var offsets: Option<seq<nat>>
    var metadata: Option<Metadata>
    var checkpoint: Option<Checkpoint>

    /** An empty output directory. */
    constructor ()
      ensures matrix.None? && offsets.None? && metadata.None? && checkpoint.None?
    {
      matrix, offsets, metadata, checkpoint := None, None, None, None;
    }

    /** Rows below `nextFactor` are complete and the checkpoint is the exact prefix total up to `nextDate`. */
    ghost predicate Valid(m: Materialization, root: real -> real)
      requires m.WellFormed()
      reads this
    {
      && (metadata.Some? ==>
        && m.Index() != []
        && metadata.value.fingerprint == m && metadata.value.rowCount == m.RowCount()
        && metadata.value.definitionCount == |m.factors|
        && offsets == Some(DateOffsets(m.Dates()))
        && matrix.Some? && RowsComplete(matrix.value, m, metadata.value.nextFactor))
      && (checkpoint.Some? ==>
        && metadata.Some? && metadata.value.nextFactor == |m.factors|
        && m.Consistent() && checkpoint.value.fingerprint == m
        && Exact(checkpoint.value.totals, m, root, checkpoint.value.nextDate))
    }

    predicate MatrixComplete(m: Materialization)
      requires m.WellFormed()
      reads this
    {
      && metadata.Some? && metadata.value.nextFactor == |m.factors|
      && offsets == Some(DateOffsets(m.Dates())) && matrix == Some(m.Matrix())
    }

    /** The ticks that completing the matrix takes at most. */
    function RowsLeft(m: Materialization): nat
      reads this
    {
      if metadata.Some? && metadata.value.nextFactor <= |m.factors| then 2 * (|m.factors| - metadata.value.nextFactor)
      else 3 + 2 * |m.factors|
    }

    /** The ticks that processing the dates behind the checkpoint takes at most. */
    function DatesLeft(m: Materialization): nat
      requires m.WellFormed()
      reads this
    {
      var done := if checkpoint.Some? then checkpoint.value.nextDate else 0;
      if done <= DateCount(m.Dates()) then 2 * (DateCount(m.Dates()) - done) else 0
    }

    /** The files of an empty matrix, one durable write each. */
    method CreateFiles(m: Materialization, launch: Launch, expected: seq<nat>, ghost root: real -> real)
      returns (killed: bool, life: Life)
      requires m.WellFormed() && m.Index() != [] && metadata.None? && checkpoint.None?
      requires expected == DateOffsets(m.Dates())
      modifies this
      ensures Valid(m, root) && checkpoint.None?
      ensures killed ==> metadata.None? && life.Over() && Spends(launch.life, life, 3)
      ensures !killed ==> metadata.Some? && metadata.value.nextFactor == 0 && Spends(launch.life, life, 3)
    {
      life := launch.life;
      if life.Over() {
        matrix := launch.tornFile;
        return true, life;
      }
      matrix, life := Some(seq(|m.factors|, _ => seq(m.RowCount(), _ => Some(0.0)))), life.Tick();
      if life.Over() {
        return true, life;
      }
      offsets, life := Some(expected), life.Tick();
      if life.Over() {
        return true, life;
      }
      metadata, life := Some(Metadata(m, m.RowCount(), |m.factors|, |expected| - 1, 0)), life.Tick();
      killed := false;
    }

    /** Materialize every factor once, continuing behind the last complete row. */
    method BuildMatrix(m: Materialization, launch: Launch, ghost root: real -> real)
      returns (outcome: Outcome<()>, life: Life)
      requires m.WellFormed() && Valid(m, root)
      modifies this
      ensures Valid(m, root) && checkpoint == old(checkpoint) && Spends(launch.life, life, old(RowsLeft(m)))
      ensures RowsLeft(m) <= old(RowsLeft(m)) && (outcome.Finished? ==> RowsLeft(m) == 0)
      ensures outcome.Finished? ==> m.Consistent() && MatrixComplete(m)
      ensures outcome.Failed? ==> !m.Consistent()
      ensures outcome.Killed? ==> life.Over()
    {
      life := launch.life;
      var rowCount := m.RowCount();
      if rowCount == 0 {
        return Failed(NoRows), life;
      }
      var expected := DateOffsets(m.Dates());
      var reusable :=
        && metadata.Some? && metadata.value.fingerprint == m && metadata.value.rowCount == rowCount
        && metadata.value.definitionCount == |m.factors|
        && matrix.Some? && |matrix.value| == |m.factors| && offsets.Some?;
      if reusable {
        if offsets.value != expected {
          return Failed(OffsetsChanged), life;
        }
        if metadata.value.nextFactor > |m.factors| {
          return Failed(InvalidCheckpoint), life;
        }
      } else {
        var killed: bool;
        killed, life := CreateFiles(m, launch, expected, root);
        if killed {
          return Killed, life;
        }
      }
      var next := metadata.value.nextFactor;
      while next < |m.factors|
        invariant next <= |m.factors| && metadata.Some? && metadata.value.nextFactor == next
        invariant Valid(m, root) && Spends(launch.life, life, old(RowsLeft(m)) - RowsLeft(m))
        invariant RowsLeft(m) <= old(RowsLeft(m)) && checkpoint == old(checkpoint)
      {
        if m.factors[next].index != m.Index() {
          return Failed(IndexMismatch), life;
        }
        if life.Over() {
          var row := matrix.value[next];
          var torn := seq(rowCount, k requires 0 <= k < rowCount =>
            if k < |launch.tornRow| then launch.tornRow[k] else row[k]);
          matrix := Some(matrix.value[next := torn]);
          return Killed, life;
        }
        matrix, life := Some(matrix.value[next := m.factors[next].values]), life.Tick();
        if life.Over() {
          return Killed, life;
        }
        metadata, life := Some(metadata.value.(nextFactor := next + 1)), life.Tick();
        next := next + 1;
      }
      AllRowsComplete(matrix.value, m);
      outcome := Finished(());
    }

    /** Add up every date behind the checkpoint, saving the totals now and then. */
    method Correlate(m: Materialization, root: real -> real, every: nat, start: Life)
        returns (outcome: Outcome<Totals>, life: Life)
      requires m.WellFormed() && m.Consistent() && Valid(m, root) && MatrixComplete(m) && every > 0
      modifies this`checkpoint
      ensures Valid(m, root) && MatrixComplete(m) && Spends(start, life, old(DatesLeft(m)))
      ensures DatesLeft(m) <= old(DatesLeft(m)) && (outcome.Finished? && old(DatesLeft(m)) > 0 ==> DatesLeft(m) == 0)
      ensures !outcome.Failed?
      ensures outcome.Finished? ==> Exact(outcome.value, m, root, DateCount(m.Dates()))
      ensures outcome.Killed? ==> life.Over()
    {
      hide ExactTotals, DateOffsets;
      MatrixShaped(m);
      life := start;
      var n, rowCount, dates := |m.factors|, m.RowCount(), DateCount(m.Dates());
      var next, totals := 0, ZeroTotals(n);
      if checkpoint.Some? {
        if checkpoint.value.fingerprint != m {
          return Failed(ForeignCheckpoint), life;
        }
        next, totals := checkpoint.value.nextDate, checkpoint.value.totals;
        CheckpointDateInRange(totals, m, root, next);
      } else {
        ZeroTotalsExact(m, root);
      }
      if next > dates {
        return Failed(InvalidCheckpoint), life;
      }
      var first := next;
      while next < dates
        invariant next <= dates && Exact(totals, m, root, next)
        invariant Valid(m, root) && MatrixComplete(m) && next >= first && Spends(start, life, 2 * (next - first))
        invariant DatesLeft(m) <= old(DatesLeft(m)) && (next == dates && first < dates ==> DatesLeft(m) == 0)
      {
        if life.Over() {
          return Killed, life;
        }
        totals := AddDay(totals, matrix.value, offsets.value, rowCount, root, next);
        next, life := next + 1, life.Tick();
        if next % every == 0 || next == dates {
          if life.Over() {
            return Killed, life;
          }
          checkpoint, life := Some(Checkpoint(m, next, totals)), life.Tick();
        }
      }
      outcome := Finished(totals);
    }

    /** One launch of the script up to the totals.  No launch loses what an earlier one has done, and one with more
        ticks than what is left takes is not killed. */
    method Launch(m: Materialization, root: real -> real, launch: Launch) returns (outcome: Outcome<Totals>)
      requires m.WellFormed() && Valid(m, root) && launch.checkpointEvery > 0
      modifies this
      ensures Valid(m, root)
      ensures outcome.Finished? ==>
        m.Consistent() && MatrixComplete(m) && Exact(outcome.value, m, root, DateCount(m.Dates()))
      ensures outcome.Failed? ==> !m.Consistent()
      ensures outcome.Killed? ==>
        launch.life.Ticks? && launch.life.left <= old(RowsLeft(m)) + old(DatesLeft(m))
      ensures RowsLeft(m) <= old(RowsLeft(m)) && DatesLeft(m) <= old(DatesLeft(m))
    {
      var built, life := BuildMatrix(m, launch, root);
      match built
      case Finished(_) => outcome, life := Correlate(m, root, launch.checkpointEvery, life);
      case Killed => outcome := Killed;
      case Failed(reason) => outcome := Failed(reason);
    }
  }

  lemma {:induction false} ZeroTotalsExact(m: Materialization, root: real -> real)
    requires m.WellFormed() && m.Consistent()
    ensures Exact(ZeroTotals(|m.factors|), m, root, 0)
  {
    MatrixShaped(m);
  }

  lemma {:induction false} CheckpointDateInRange(t: Totals, m: Materialization, root: real -> real, d: nat)
    requires m.WellFormed() && Exact(t, m, root, d)
    ensures d <= DateCount(m.Dates())
  {
  }

  /** Any sequence of killed launches, with any checkpoint intervals, followed by one that runs to its end. */
  method RestartUntilDone(
      m: Materialization, root: real -> real, killed: seq<Launch>, every: nat)
      returns (outcome: Outcome<Totals>, directory: OutputDirectory)
    requires m.WellFormed() && every > 0 && forall k :: 0 <= k < |killed| ==> killed[k].checkpointEvery > 0
    ensures !outcome.Killed? && (outcome.Finished? <==> m.Consistent())
    ensures outcome.Finished? ==>
      && directory.MatrixComplete(m)
      && Exact(outcome.value, m, root, DateCount(m.Dates()))
  {
    directory := new OutputDirectory();
    for k := 0 to |killed|
      invariant directory.Valid(m, root)
      invariant fresh(directory)
    {
      var _ := directory.Launch(m, root, killed[k]);
    }
    outcome := directory.Launch(m, root, Launch(Unlimited, every, None, []));
  }

  /** Two histories of kills and restarts over one materialization end with the same totals. */
  lemma {:induction false} HistoriesAgree(s: Totals, t: Totals, m: Materialization, root: real -> real)
    requires m.WellFormed()
    requires Exact(s, m, root, DateCount(m.Dates())) && Exact(t, m, root, DateCount(m.Dates()))
    ensures s == t
  {
    ExactTotalsUnique(s, t, m.Matrix(), DateOffsets(m.Dates()), m.RowCount(), root, DateCount(m.Dates()));
  }
}
