/** The clustering script from end to end: whatever was killed on the way, the similarity depends on the materialization
    alone, and the clusters are governed by it.
 */
module ClusterLibrary {
  import opened Values
  import opened RankCorrelation
  import opened DailyAccumulation
  import opened ResumablePipeline
  import opened FactorClusters
  import opened ClusterAssignments

  datatype LibraryError =
    | InvalidThresholds
    | InvalidInterval
    | TooFewFactors
    | PipelineFailed(failure: Failure)
    | ClusteringFailed(error: ClusterError)

  predicate ValidThresholds(clusterThreshold: real, nearThreshold: real) {
    0.0 < clusterThreshold < nearThreshold <= 1.0
  }

  /** The similarity of a materialization: the exact mean absolute correlation of every pair with enough days. */
  ghost predicate SimilarityOf(sim: Similarity, t: Totals, m: Materialization, root: real -> real)
    requires m.WellFormed()
  {
    && Exact(t, m, root, DateCount(m.Dates())) && sim.size == |m.factors|
    && sim.SquareShape() && sim.Symmetric()
    && (forall i :: 0 <= i < sim.size ==> sim.At(i, i) == Some(1.0))
    && forall i, j :: 0 <= i < j < sim.size ==> sim.At(i, j) == PairMean(t, i, j)
  }

  /** There is only one, and all its entries lie in [0, 1]. */
  lemma {:induction false} SimilarityIsDetermined(
      a: Similarity, b: Similarity, s: Totals, t: Totals, m: Materialization, root: real -> real)
    requires m.WellFormed() && SimilarityOf(a, s, m, root) && SimilarityOf(b, t, m, root)
    ensures a == b && s == t
  {
    HistoriesAgree(s, t, m, root);
    hide PairMean, Exact;
    forall i | 0 <= i < a.size
      ensures a.rows[i] == b.rows[i]
    {
      forall j | 0 <= j < a.size
        ensures a.At(i, j) == b.At(i, j)
      {
        assert a.At(i, j) == a.At(j, i) && b.At(i, j) == b.At(j, i);
      }
      assert forall j :: 0 <= j < a.size ==> a.At(i, j) == a.rows[i][j] && b.At(i, j) == b.rows[i][j];
    }
    assert a.rows == b.rows;
  }

  lemma {:induction false} SimilarityInUnit(sim: Similarity, t: Totals, m: Materialization, root: real -> real,
                                            i: nat, j: nat)
    requires m.WellFormed() && SimilarityOf(sim, t, m, root) && IsSquareRoot(root) && i < sim.size && j < sim.size
    ensures sim.At(i, j).Some? ==> 0.0 <= sim.At(i, j).value <= 1.0
  {
    SimilaritiesInUnit(sim, t, m.Matrix(), DateOffsets(m.Dates()), m.RowCount(), root, DateCount(m.Dates()), i, j);
  }

  // ----- what a similarity means -----

  /** The slices of the materialization on which both factors correlate. */
  function EligibleSlices(m: Materialization, root: real -> real, i: nat, j: nat): set<nat>
    requires m.WellFormed() && m.Consistent() && i < |m.factors| && j < |m.factors|
  {
    MatrixShaped(m);
    EligibleDates(m.Matrix(), DateOffsets(m.Dates()), m.RowCount(), root, DateCount(m.Dates()), i, j)
  }

  function SliceCorrelation(m: Materialization, root: real -> real, d: nat, i: nat, j: nat): Option<real>
    requires m.WellFormed() && m.Consistent() && d < DateCount(m.Dates()) && i < |m.factors| && j < |m.factors|
  {
    MatrixShaped(m);
    DayEntry(m.Matrix(), DateOffsets(m.Dates()), m.RowCount(), root, d, i, j)
  }

  lemma {:induction false} MeanTimesCount(total: real, count: nat)
    requires count > 0
    ensures total / count as real * count as real == total
  {
  }

  /** What the accumulators hold for a pair. */
  lemma {:induction false} PairTotals(t: Totals, m: Materialization, root: real -> real, i: nat, j: nat)
    requires m.WellFormed() && m.Consistent() && Exact(t, m, root, DateCount(m.Dates()))
    requires i < |m.factors| && j < |m.factors|
    ensures SquareTotals(t) && |t.absoluteSum| == |m.factors|
    ensures Shaped(m.Matrix(), DateOffsets(m.Dates()), m.RowCount())
    ensures t.eligibleDays[i][j] == |EligibleSlices(m, root, i, j)|
    ensures t.absoluteSum[i][j]
         == SumTo(m.Matrix(), DateOffsets(m.Dates()), m.RowCount(), root, DateCount(m.Dates()), i, j)
  {
    DaysAreEligible(m.Matrix(), DateOffsets(m.Dates()), m.RowCount(), root, DateCount(m.Dates()), i, j);
    hide SumTo, DaysTo, EligibleDates, DateOffsets;
  }

  /** A similarity is the mean of the daily absolute correlations, known exactly when there are enough of them. */
  lemma {:induction false} SimilarityIsMean(sim: Similarity, t: Totals, m: Materialization, root: real -> real,
                                            i: nat, j: nat)
    requires m.WellFormed() && m.Consistent() && SimilarityOf(sim, t, m, root) && i < j < sim.size
    ensures Shaped(m.Matrix(), DateOffsets(m.Dates()), m.RowCount())
    ensures sim.At(i, j).Some? <==> |EligibleSlices(m, root, i, j)| >= MIN_ELIGIBLE_DAYS
    ensures sim.At(i, j).Some? ==>
      sim.At(i, j).value * |EligibleSlices(m, root, i, j)| as real
      == SumTo(m.Matrix(), DateOffsets(m.Dates()), m.RowCount(), root, DateCount(m.Dates()), i, j)
  {
    hide SumTo, EligibleSlices, DateOffsets, DateCount, Exact, Shaped;
    PairTotals(t, m, root, i, j);
    assert sim.At(i, j) == PairMean(t, i, j);
    if sim.At(i, j).Some? {
      MeanTimesCount(t.absoluteSum[i][j], t.eligibleDays[i][j]);
    }
  }

  /** So it lies between the least and the greatest of them. */
  lemma {:induction false} SimilarityBetween(sim: Similarity, t: Totals, m: Materialization, root: real -> real,
                                             i: nat, j: nat, low: real, high: real)
    requires m.WellFormed() && m.Consistent() && SimilarityOf(sim, t, m, root) && i < j < sim.size
    requires forall d :: d in EligibleSlices(m, root, i, j) ==>
      low <= Abs(SliceCorrelation(m, root, d, i, j).value) <= high
    ensures sim.At(i, j).Some? ==> low <= sim.At(i, j).value <= high
  {
    var matrix, offsets, rowCount, dates := m.Matrix(), DateOffsets(m.Dates()), m.RowCount(), DateCount(m.Dates());
    MatrixShaped(m);
    assert DaysBetween(matrix, offsets, rowCount, root, dates, i, j, low, high) by {
      forall e: nat | e < dates && DayEntry(matrix, offsets, rowCount, root, e, i, j).Some?
        ensures low <= Abs(DayEntry(matrix, offsets, rowCount, root, e, i, j).value) <= high
      {
        assert e in EligibleSlices(m, root, i, j);
        assert SliceCorrelation(m, root, e, i, j) == DayEntry(matrix, offsets, rowCount, root, e, i, j);
      }
    }
    SumBetween(matrix, offsets, rowCount, root, dates, i, j, low, high);
    hide SumTo, DaysTo, DayEntry, DateOffsets, DaysBetween;
    assert sim.At(i, j) == PairMean(t, i, j);
    if sim.At(i, j).Some? {
      QuotientBetween(t.absoluteSum[i][j], t.eligibleDays[i][j] as real, low, high);
    }
  }

  /** What one factor says on one slice. */
  function FactorOn(m: Materialization, d: nat, i: nat): Column
    requires m.WellFormed() && m.Consistent() && d < DateCount(m.Dates()) && i < |m.factors|
  {
    OffsetsInside(m.Dates(), d);
    m.factors[i].values[DateOffsets(m.Dates())[d]..DateOffsets(m.Dates())[d + 1]]
  }

  /** The values of one date in a table, in the order of its rows. */
  function RowsOn(index: seq<RowKey>, values: Column, date: int): Column
    requires |index| == |values|
  {
    if index == [] then []
    else
      var last := |index| - 1;
      RowsOn(index[..last], values[..last], date) + if index[last].date == date then [values[last]] else []
  }

  lemma {:induction false} RowsOnIsOfDate(index: seq<RowKey>, dates: seq<int>, values: Column, date: int)
    requires |index| == |dates| == |values| && forall k :: 0 <= k < |index| ==> dates[k] == index[k].date
    ensures RowsOn(index, values, date) == OfDate(dates, values, date)
    decreases |index|
  {
    if index != [] {
      var last := |index| - 1;
      RowsOnIsOfDate(index[..last], dates[..last], values[..last], date);
    }
  }

  /** When the tables are sorted by date, a slice of a factor is what its own table holds on one date. */
  lemma {:induction false} SlicesByDate(m: Materialization, d: nat, i: nat) returns (date: int)
    requires m.WellFormed() && m.Consistent() && d < DateCount(m.Dates()) && i < |m.factors|
    requires forall k, l :: 0 <= k <= l < |m.Index()| ==> m.Index()[k].date <= m.Index()[l].date
    ensures FactorOn(m, d, i) == RowsOn(m.factors[i].index, m.factors[i].values, date)
    ensures DateOffsets(m.Dates())[d] < m.RowCount() && date == m.Index()[DateOffsets(m.Dates())[d]].date
  {
    assert Sorted(m.Dates());
    OffsetsInside(m.Dates(), d);
    date := m.Dates()[DateOffsets(m.Dates())[d]];
    SliceIsDate(m.Dates(), m.factors[i].values, d);
    RowsOnIsOfDate(m.factors[i].index, m.Dates(), m.factors[i].values, date);
    hide DateOffsets, DateCount, Sorted;
  }

  /** Two factors that order the instruments alike on every date are fully similar. */
  lemma {:induction false} TwinsAreSimilar(sim: Similarity, t: Totals, m: Materialization, root: real -> real,
                                           i: nat, j: nat)
    requires m.WellFormed() && m.Consistent() && SimilarityOf(sim, t, m, root) && i < j < sim.size
    requires IsSquareRoot(root) && |EligibleSlices(m, root, i, j)| >= MIN_ELIGIBLE_DAYS
    requires forall d :: d in EligibleSlices(m, root, i, j) ==> OrderIsomorphic(FactorOn(m, d, i), FactorOn(m, d, j))
    ensures sim.At(i, j) == Some(1.0)
  {
    MatrixShaped(m);
    forall d | d in EligibleSlices(m, root, i, j)
      ensures Abs(SliceCorrelation(m, root, d, i, j).value) == 1.0
    {
      RanksSeeOnlyOrder(FactorOn(m, d, i), FactorOn(m, d, j));
      SelfCorrelation(Ranks(FactorOn(m, d, i)), MIN_DAILY_INSTRUMENTS, root);
    }
    hide EligibleSlices, SimilarityOf, SliceCorrelation;
    SimilarityIsMean(sim, t, m, root, i, j);
    SimilarityBetween(sim, t, m, root, i, j, 1.0, 1.0);
  }

  /** Any number of killed launches, then one that runs to its end and clusters. */
  method ClusterFactorLibrary(
      m: Materialization, names: seq<string>, root: real -> real, killed: seq<Launch>, every: int,
      clusterThreshold: real, nearThreshold: real)
      returns (r: Result<map<string, ClusterId>, LibraryError>, ghost sim: Similarity, ghost totals: Totals)
    requires m.WellFormed() && |names| == |m.factors| && Distinct(names)
    requires forall k :: 0 <= k < |killed| ==> killed[k].checkpointEvery > 0
    ensures r.Ok? <==>
      0.0 < clusterThreshold < nearThreshold <= 1.0 && every >= 1 && |names| >= 2 && m.Consistent()
    ensures r.Ok? ==> SimilarityOf(sim, totals, m, root) && forall name :: name in r.value <==> name in names
    ensures r.Ok? && !Ambiguous(names) ==>
      Governed(seq(|names|, i requires 0 <= i < |names| => r.value[names[i]]), sim, clusterThreshold, nearThreshold)
  {
    totals, sim := Totals([], []), Similarity(0, []);
    if !ValidThresholds(clusterThreshold, nearThreshold) {
      return Err(InvalidThresholds), sim, totals;
    }
    if every < 1 {
      return Err(InvalidInterval), sim, totals;
    }
    if |names| < 2 {
      return Err(TooFewFactors), sim, totals;
    }
    var outcome, directory := RestartUntilDone(m, root, killed, every);
    if outcome.Failed? {
      return Err(PipelineFailed(outcome.reason)), sim, totals;
    }
    totals := outcome.value;
    var similarity := AssembleSimilarity(outcome.value);
    sim := similarity;
    var assignments := GovernedClusterAssignments(names, similarity, clusterThreshold, nearThreshold);
    match assignments
    case Err(e) => r := Err(ClusteringFailed(e));
    case Ok(found) => r := Ok(found);
  }
}
