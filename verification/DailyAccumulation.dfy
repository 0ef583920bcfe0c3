/** The daily stage of the clustering script: split the sorted rows into dates, add up absolute rank correlations per
    pair of factors, and turn the totals into the similarity matrix that is clustered.
 */
module DailyAccumulation {
  import opened Values
  import opened RankCorrelation
  import opened FactorClusters

  const MIN_ELIGIBLE_DAYS: nat := 60

  // ----- dates -----

  /** Positions below `k` where the date differs from the row before. */
  function ChangePoints(dates: seq<int>, k: nat): (changes: seq<nat>)
    requires k <= |dates|
    ensures forall c :: c in changes ==> 0 < c < k && dates[c] != dates[c - 1]
    ensures forall c :: 0 < c < k && dates[c] != dates[c - 1] ==> c in changes
    ensures forall a, b :: 0 <= a < b < |changes| ==> changes[a] < changes[b]
  {
    if k == 0 then []
    else
      var rest := ChangePoints(dates, k - 1);
      assert forall a :: 0 <= a < |rest| ==> rest[a] in rest;
      rest + if k > 1 && dates[k - 1] != dates[k - 2] then [k - 1] else []
  }

  function DateOffsets(dates: seq<int>): seq<nat> {
    [0] + ChangePoints(dates, |dates|) + [|dates|]
  }

  function DateCount(dates: seq<int>): nat {
    |DateOffsets(dates)| - 1
  }

  predicate Sorted(dates: seq<int>) {
    forall k, l :: 0 <= k <= l < |dates| ==> dates[k] <= dates[l]
  }

  lemma {:induction false} OffsetsIncrease(dates: seq<int>)
    requires dates != []
    ensures forall a, b :: 0 <= a < b < |DateOffsets(dates)| ==> DateOffsets(dates)[a] < DateOffsets(dates)[b]
  {
    var changes := ChangePoints(dates, |dates|);
    assert forall a :: 0 <= a < |changes| ==> changes[a] in changes;
  }

  lemma {:induction false} OffsetOfChange(dates: seq<int>, k: nat) returns (a: nat)
    requires 0 < k < |dates| && dates[k] != dates[k - 1]
    ensures a < |DateOffsets(dates)| && DateOffsets(dates)[a] == k
  {
    var changes := ChangePoints(dates, |dates|);
    var i :| 0 <= i < |changes| && changes[i] == k;
    a := i + 1;
  }

  /** Nothing changes strictly inside a slice. */
  lemma {:induction false} SliceIsConstant(dates: seq<int>, d: nat, k: nat)
    requires dates != [] && d + 1 < |DateOffsets(dates)|
    requires DateOffsets(dates)[d] <= k < DateOffsets(dates)[d + 1] <= |dates|
    ensures dates[k] == dates[DateOffsets(dates)[d]]
    decreases k
  {
    var offsets := DateOffsets(dates);
    OffsetsIncrease(dates);
    if k > offsets[d] {
      if dates[k] != dates[k - 1] {
        var a := OffsetOfChange(dates, k);
        assert false;
      }
      SliceIsConstant(dates, d, k - 1);
    }
  }

  /** Every row lies in exactly one slice. */
  lemma {:induction false} SliceOf(offsets: seq<nat>, k: nat) returns (d: nat)
    requires |offsets| >= 2 && offsets[0] <= k < offsets[|offsets| - 1]
    ensures d + 1 < |offsets| && offsets[d] <= k < offsets[d + 1]
    decreases |offsets|
  {
    if k >= offsets[|offsets| - 2] {
      d := |offsets| - 2;
    } else {
      d := SliceOf(offsets[..|offsets| - 1], k);
    }
  }

  lemma {:induction false} SliceOrder(dates: seq<int>, d: nat, e: nat)
    requires dates != [] && d < e < |DateOffsets(dates)|
    ensures DateOffsets(dates)[d + 1] <= DateOffsets(dates)[e]
  {
    OffsetsIncrease(dates);
  }

  lemma {:induction false} SliceOfIsUnique(dates: seq<int>, d: nat, e: nat, k: nat)
    requires dates != [] && d + 1 < |DateOffsets(dates)| && e + 1 < |DateOffsets(dates)|
    requires DateOffsets(dates)[d] <= k < DateOffsets(dates)[d + 1]
    requires DateOffsets(dates)[e] <= k < DateOffsets(dates)[e + 1]
    ensures d == e
  {
    if d < e {
      SliceOrder(dates, d, e);
    } else if e < d {
      SliceOrder(dates, e, d);
    }
  }

  /** On sorted rows the slices are exactly the trading dates: same slice if and only if same date. */
  lemma {:induction false} SlicesAreDates(dates: seq<int>, k: nat, l: nat, d: nat, e: nat)
    requires dates != [] && Sorted(dates) && d + 1 < |DateOffsets(dates)| && e + 1 < |DateOffsets(dates)|
    requires DateOffsets(dates)[d] <= k < DateOffsets(dates)[d + 1] <= |dates|
    requires DateOffsets(dates)[e] <= l < DateOffsets(dates)[e + 1] <= |dates|
    ensures dates[k] == dates[l] <==> d == e
  {
    SliceIsConstant(dates, d, k);
    SliceIsConstant(dates, e, l);
    if d != e {
      if d < e {
        LaterSliceIsLater(dates, d, e);
      } else {
        LaterSliceIsLater(dates, e, d);
      }
    }
  }

  lemma {:induction false} LaterSliceIsLater(dates: seq<int>, d: nat, e: nat)
    requires dates != [] && Sorted(dates) && d < e && e + 1 < |DateOffsets(dates)|
    ensures DateOffsets(dates)[d] < DateOffsets(dates)[e] < |dates|
    ensures dates[DateOffsets(dates)[d]] < dates[DateOffsets(dates)[e]]
  {
    var offsets := DateOffsets(dates);
    OffsetsIncrease(dates);
    var c := offsets[e];
    assert c == ChangePoints(dates, |dates|)[e - 1];
    assert c in ChangePoints(dates, |dates|);
    assert offsets[d] <= c - 1;
    assert dates[offsets[d]] <= dates[c - 1] <= dates[c];
    assert dates[c - 1] != dates[c];
  }

  // ----- one day -----

  type Matrix = seq<Column>

  /** `rows` columns of equal length, and offsets that stay inside them. */
  predicate Shaped(matrix: Matrix, offsets: seq<nat>, rowCount: nat) {
    && (forall i :: 0 <= i < |matrix| ==> |matrix[i]| == rowCount)
    && (forall a, b :: 0 <= a < b < |offsets| ==> offsets[a] < offsets[b])
    && (forall a :: 0 <= a < |offsets| ==> offsets[a] <= rowCount)
  }

  /** The ranks of one factor inside one date. */
  function DayColumn(matrix: Matrix, offsets: seq<nat>, rowCount: nat, d: nat, i: nat): Column
    requires Shaped(matrix, offsets, rowCount) && d + 1 < |offsets| && i < |matrix|
  {
    Ranks(matrix[i][offsets[d]..offsets[d + 1]])
  }

  /** The finite daily correlation of factors `i` and `j`, if that day has one. */
  function DayEntry(
      matrix: Matrix, offsets: seq<nat>, rowCount: nat, root: real -> real, d: nat, i: nat, j: nat): Option<real>
    requires Shaped(matrix, offsets, rowCount) && d + 1 < |offsets| && i < |matrix| && j < |matrix|
  {
    if offsets[d + 1] - offsets[d] >= MIN_DAILY_INSTRUMENTS
    then Correlation(DayColumn(matrix, offsets, rowCount, d, i), DayColumn(matrix, offsets, rowCount, d, j),
                     MIN_DAILY_INSTRUMENTS, root)
    else None
  }

  /** The rows of one date, in order. */
  function OfDate(dates: seq<int>, col: Column, date: int): Column
    requires |dates| == |col|
  {
    if dates == [] then []
    else
      OfDate(dates[..|dates| - 1], col[..|col| - 1], date)
      + if dates[|dates| - 1] == date then [col[|col| - 1]] else []
  }

  lemma {:induction false} OfDateNone(dates: seq<int>, col: Column, date: int)
    requires |dates| == |col| && date !in dates
    ensures OfDate(dates, col, date) == []
    decreases |dates|
  {
    if dates != [] {
      OfDateNone(dates[..|dates| - 1], col[..|col| - 1], date);
    }
  }

  lemma {:induction false} OfDateAll(dates: seq<int>, col: Column, date: int)
    requires |dates| == |col| && forall k :: 0 <= k < |dates| ==> dates[k] == date
    ensures OfDate(dates, col, date) == col
    decreases |dates|
  {
    if dates != [] {
      OfDateAll(dates[..|dates| - 1], col[..|col| - 1], date);
      assert col == col[..|col| - 1] + [col[|col| - 1]];
    }
  }

  lemma {:induction false} OfDateConcat(a: seq<int>, b: seq<int>, x: Column, y: Column, date: int)
    requires |a| == |x| && |b| == |y|
    ensures OfDate(a + b, x + y, date) == OfDate(a, x, date) + OfDate(b, y, date)
    decreases |b|
  {
    if b == [] {
      assert a + b == a && x + y == x;
    } else {
      assert (a + b)[..|a + b| - 1] == a + b[..|b| - 1] && (x + y)[..|x + y| - 1] == x + y[..|y| - 1];
      OfDateConcat(a, b[..|b| - 1], x, y[..|y| - 1], date);
    }
  }

  lemma {:induction false} OffsetsInside(dates: seq<int>, d: nat)
    requires dates != [] && d < DateCount(dates)
    ensures DateOffsets(dates)[d] < DateOffsets(dates)[d + 1] <= |dates|
  {
    OffsetsIncrease(dates);
    var offsets := DateOffsets(dates);
    assert offsets[|offsets| - 1] == |dates|;
    assert d + 1 < |offsets| - 1 ==> offsets[d + 1] < offsets[|offsets| - 1];
  }

  lemma {:induction false} SliceHoldsDate(dates: seq<int>, d: nat, k: nat)
    requires Sorted(dates) && k < |dates| && d < DateCount(dates)
    requires DateOffsets(dates)[d] < DateOffsets(dates)[d + 1] <= |dates|
    ensures dates[k] == dates[DateOffsets(dates)[d]] <==> DateOffsets(dates)[d] <= k < DateOffsets(dates)[d + 1]
  {
    var offsets := DateOffsets(dates);
    assert offsets[|offsets| - 1] == |dates|;
    var e := SliceOf(offsets, k);
    OffsetsInside(dates, e);
    SlicesAreDates(dates, offsets[d], k, d, e);
    if e < d {
      SliceOrder(dates, e, d);
    } else if d < e {
      SliceOrder(dates, d, e);
    }
  }

  lemma {:induction false} OfDateBlock(dates: seq<int>, col: Column, date: int, lo: nat, hi: nat)
    requires lo <= hi <= |dates| == |col| && forall k :: 0 <= k < |dates| ==> (dates[k] == date <==> lo <= k < hi)
    ensures OfDate(dates, col, date) == col[lo..hi]
  {
    hide OfDate;
    OfDateNone(dates[..lo], col[..lo], date);
    OfDateAll(dates[lo..hi], col[lo..hi], date);
    OfDateNone(dates[hi..], col[hi..], date);
    OfDateConcat(dates[..lo], dates[lo..hi], col[..lo], col[lo..hi], date);
    assert dates[..lo] + dates[lo..hi] == dates[..hi] && col[..lo] + col[lo..hi] == col[..hi];
    OfDateConcat(dates[..hi], dates[hi..], col[..hi], col[hi..], date);
    assert dates[..hi] + dates[hi..] == dates && col[..hi] + col[hi..] == col;
  }

  /** Slicing sorted rows is grouping them by date. */
  lemma {:induction false} SliceIsDate(dates: seq<int>, col: Column, d: nat)
    requires dates != [] && Sorted(dates) && |col| == |dates| && d < DateCount(dates)
    ensures DateOffsets(dates)[d] < DateOffsets(dates)[d + 1] <= |dates|
    ensures col[DateOffsets(dates)[d]..DateOffsets(dates)[d + 1]]
         == OfDate(dates, col, dates[DateOffsets(dates)[d]])
  {
    OffsetsInside(dates, d);
    hide DateOffsets, Sorted, DateCount, OfDate;
    var lo, hi, date := DateOffsets(dates)[d], DateOffsets(dates)[d + 1], dates[DateOffsets(dates)[d]];
    forall k | 0 <= k < |dates|
      ensures dates[k] == date <==> lo <= k < hi
    {
      SliceHoldsDate(dates, d, k);
    }
    OfDateBlock(dates, col, date, lo, hi);
  }

  /** Rows in which both columns have a rank. */
  lemma {:induction false} CommonFits(x: Column, y: Column)
    requires |x| == |y|
    ensures |Common(x, y)| <= |x|
    decreases |x|
  {
    if x != [] {
      CommonFits(x[1..], y[1..]);
    }
  }

  /** A day counts for two factors exactly when enough instruments have both ranks and both vary over them; then it
      counts with the Pearson coefficient of the ranks. */
  lemma {:induction false} DayEntryExactly(
      matrix: Matrix, offsets: seq<nat>, rowCount: nat, root: real -> real, d: nat, i: nat, j: nat)
    requires Shaped(matrix, offsets, rowCount) && d + 1 < |offsets| && i < |matrix| && j < |matrix|
    requires IsSquareRoot(root)
    ensures
      var x, y := Ranks(matrix[i][offsets[d]..offsets[d + 1]]), Ranks(matrix[j][offsets[d]..offsets[d + 1]]);
      var xs, ys := Lefts(Common(x, y)), Rights(Common(x, y));
      var entry, deviation := DayEntry(matrix, offsets, rowCount, root, d, i, j),
                              root(Times(Comoment(xs, xs), Comoment(ys, ys)));
      && (entry.Some? <==> |xs| >= MIN_DAILY_INSTRUMENTS && Comoment(xs, xs) > 0.0 && Comoment(ys, ys) > 0.0)
      && (entry.Some? ==> deviation > 0.0 && entry.value == Comoment(xs, ys) / deviation)
  {
    hide Correlation, Comoment, RankAt;
    var x, y := Ranks(matrix[i][offsets[d]..offsets[d + 1]]), Ranks(matrix[j][offsets[d]..offsets[d + 1]]);
    CorrelationIsPearson(x, y, MIN_DAILY_INSTRUMENTS, root);
    CommonFits(x, y);
  }

  // ----- totals -----

  /** Exact total of absolute correlations over the first `d` dates. */
  function SumTo(matrix: Matrix, offsets: seq<nat>, rowCount: nat, root: real -> real, d: nat, i: nat, j: nat): real
    requires Shaped(matrix, offsets, rowCount) && d < |offsets| && i < |matrix| && j < |matrix|
  {
    if d == 0 then 0.0
    else
      var entry := DayEntry(matrix, offsets, rowCount, root, d - 1, i, j);
      SumTo(matrix, offsets, rowCount, root, d - 1, i, j) + if entry.Some? then Abs(entry.value) else 0.0
  }

  function DaysTo(matrix: Matrix, offsets: seq<nat>, rowCount: nat, root: real -> real, d: nat, i: nat, j: nat): nat
    requires Shaped(matrix, offsets, rowCount) && d < |offsets| && i < |matrix| && j < |matrix|
  {
    if d == 0 then 0
    else
      DaysTo(matrix, offsets, rowCount, root, d - 1, i, j)
        + if DayEntry(matrix, offsets, rowCount, root, d - 1, i, j).Some? then 1 else 0
  }

  lemma {:induction false} DayEntryFacts(
      matrix: Matrix, offsets: seq<nat>, rowCount: nat, root: real -> real, d: nat, i: nat, j: nat)
    requires Shaped(matrix, offsets, rowCount) && d + 1 < |offsets| && i < |matrix| && j < |matrix|
    requires IsSquareRoot(root)
    ensures DayEntry(matrix, offsets, rowCount, root, d, i, j) == DayEntry(matrix, offsets, rowCount, root, d, j, i)
    ensures
      var entry := DayEntry(matrix, offsets, rowCount, root, d, i, j);
      entry.Some? ==> 0.0 <= Abs(entry.value) <= 1.0
  {
    hide Correlation;
    CorrelationIsPearson(DayColumn(matrix, offsets, rowCount, d, i), DayColumn(matrix, offsets, rowCount, d, j),
                         MIN_DAILY_INSTRUMENTS, root);
  }

  /** Totals are symmetric, and the total never exceeds the number of days, which never exceeds the dates seen. */
  lemma {:induction false} TotalsBounded(
      matrix: Matrix, offsets: seq<nat>, rowCount: nat, root: real -> real, d: nat, i: nat, j: nat)
    requires Shaped(matrix, offsets, rowCount) && d < |offsets| && i < |matrix| && j < |matrix|
    requires IsSquareRoot(root)
    ensures 0.0 <= SumTo(matrix, offsets, rowCount, root, d, i, j)
      <= DaysTo(matrix, offsets, rowCount, root, d, i, j) as real
    ensures DaysTo(matrix, offsets, rowCount, root, d, i, j) <= d
    ensures SumTo(matrix, offsets, rowCount, root, d, i, j) == SumTo(matrix, offsets, rowCount, root, d, j, i)
    ensures DaysTo(matrix, offsets, rowCount, root, d, i, j) == DaysTo(matrix, offsets, rowCount, root, d, j, i)
    decreases d
  {
    hide DayEntry;
    if d > 0 {
      TotalsBounded(matrix, offsets, rowCount, root, d - 1, i, j);
      DayEntryFacts(matrix, offsets, rowCount, root, d - 1, i, j);
    }
  }

  datatype Totals = Totals(absoluteSum: seq<seq<real>>, eligibleDays: seq<seq<nat>>)

  /** The accumulators hold exactly the totals of the first `d` dates. */
  ghost predicate ExactTotals(
      t: Totals, matrix: Matrix, offsets: seq<nat>, rowCount: nat, root: real -> real, d: nat)
  {
    && Shaped(matrix, offsets, rowCount) && d < |offsets|
    && |t.absoluteSum| == |t.eligibleDays| == |matrix|
    && (forall i :: 0 <= i < |matrix| ==> |t.absoluteSum[i]| == |t.eligibleDays[i]| == |matrix|)
    && forall i, j :: 0 <= i < |matrix| && 0 <= j < |matrix| ==>
      && t.absoluteSum[i][j] == SumTo(matrix, offsets, rowCount, root, d, i, j)
      && t.eligibleDays[i][j] == DaysTo(matrix, offsets, rowCount, root, d, i, j)
  }

  lemma {:induction false} ExactTotalsUnique(
      s: Totals, t: Totals, matrix: Matrix, offsets: seq<nat>, rowCount: nat, root: real -> real, d: nat)
    requires ExactTotals(s, matrix, offsets, rowCount, root, d) && ExactTotals(t, matrix, offsets, rowCount, root, d)
    ensures s == t
  {
    hide SumTo, DaysTo;
    assert forall i :: 0 <= i < |matrix| ==>
      s.absoluteSum[i] == t.absoluteSum[i] && s.eligibleDays[i] == t.eligibleDays[i];
  }

  function ZeroTotals(n: nat): Totals {
    Totals(seq(n, _ => seq(n, _ => 0.0)), seq(n, _ => seq(n, _ => 0)))
  }

  /** Adding one date to both accumulators, entry by entry. */
  method AddDay(t: Totals, matrix: Matrix, offsets: seq<nat>, rowCount: nat, root: real -> real, d: nat)
      returns (after: Totals)
    requires d + 1 < |offsets| && ExactTotals(t, matrix, offsets, rowCount, root, d)
    ensures ExactTotals(after, matrix, offsets, rowCount, root, d + 1)
  {
    hide DayEntry;
    var n := |matrix|;
    var sums: seq<seq<real>>, days: seq<seq<nat>> := t.absoluteSum, t.eligibleDays;
    for i := 0 to n
      invariant |sums| == |days| == n
      invariant forall k :: 0 <= k < n ==> |sums[k]| == |days[k]| == n
      invariant forall k, l :: 0 <= k < n && 0 <= l < n ==>
        && sums[k][l] == SumTo(matrix, offsets, rowCount, root, if k < i then d + 1 else d, k, l)
        && days[k][l] == DaysTo(matrix, offsets, rowCount, root, if k < i then d + 1 else d, k, l)
    {
      var sumRow, dayRow := AddDayRow(sums[i], days[i], matrix, offsets, rowCount, root, d, i);
      sums, days := sums[i := sumRow], days[i := dayRow];
    }
    after := Totals(sums, days);
  }

  method AddDayRow(
      sums: seq<real>, days: seq<nat>, matrix: Matrix, offsets: seq<nat>, rowCount: nat, root: real -> real, d: nat,
      i: nat)
      returns (sumRow: seq<real>, dayRow: seq<nat>)
    requires Shaped(matrix, offsets, rowCount) && d + 1 < |offsets| && i < |matrix|
    requires |sums| == |days| == |matrix|
    requires forall j :: 0 <= j < |matrix| ==>
      && sums[j] == SumTo(matrix, offsets, rowCount, root, d, i, j)
      && days[j] == DaysTo(matrix, offsets, rowCount, root, d, i, j)
    ensures |sumRow| == |dayRow| == |matrix|
    ensures forall j :: 0 <= j < |matrix| ==>
      && sumRow[j] == SumTo(matrix, offsets, rowCount, root, d + 1, i, j)
      && dayRow[j] == DaysTo(matrix, offsets, rowCount, root, d + 1, i, j)
  {
    hide DayEntry;
    sumRow, dayRow := sums, days;
    for j := 0 to |matrix|
      invariant |sumRow| == |dayRow| == |matrix|
      invariant forall l :: 0 <= l < |matrix| ==>
        && sumRow[l] == SumTo(matrix, offsets, rowCount, root, if l < j then d + 1 else d, i, l)
        && dayRow[l] == DaysTo(matrix, offsets, rowCount, root, if l < j then d + 1 else d, i, l)
    {
      var entry := DayEntry(matrix, offsets, rowCount, root, d, i, j);
      if entry.Some? {
        sumRow := sumRow[j := sumRow[j] + Abs(entry.value)];
        dayRow := dayRow[j := dayRow[j] + 1];
      }
    }
  }

  // ----- what the totals say -----

  /** The dates on which both factors rank enough instruments to correlate. */
  function EligibleDates(
      matrix: Matrix, offsets: seq<nat>, rowCount: nat, root: real -> real, d: nat, i: nat, j: nat): set<nat>
    requires Shaped(matrix, offsets, rowCount) && d < |offsets| && i < |matrix| && j < |matrix|
  {
    set e: nat | e < d && DayEntry(matrix, offsets, rowCount, root, e, i, j).Some?
  }

  lemma {:induction false} DaysAreEligible(
      matrix: Matrix, offsets: seq<nat>, rowCount: nat, root: real -> real, d: nat, i: nat, j: nat)
    requires Shaped(matrix, offsets, rowCount) && d < |offsets| && i < |matrix| && j < |matrix|
    ensures DaysTo(matrix, offsets, rowCount, root, d, i, j)
      == |EligibleDates(matrix, offsets, rowCount, root, d, i, j)|
    decreases d
  {
    hide DayEntry, Shaped;
    if d > 0 {
      DaysAreEligible(matrix, offsets, rowCount, root, d - 1, i, j);
      var before := EligibleDates(matrix, offsets, rowCount, root, d - 1, i, j);
      assert EligibleDates(matrix, offsets, rowCount, root, d, i, j)
          == before + if DayEntry(matrix, offsets, rowCount, root, d - 1, i, j).Some? then {d - 1} else {};
    }
  }

  /** All daily absolute correlations up to date `d` lie between `low` and `high`. */
  ghost predicate DaysBetween(
      matrix: Matrix, offsets: seq<nat>, rowCount: nat, root: real -> real, d: nat, i: nat, j: nat, low: real,
      high: real)
    requires Shaped(matrix, offsets, rowCount) && d < |offsets| && i < |matrix| && j < |matrix|
  {
    forall e: nat :: e < d && DayEntry(matrix, offsets, rowCount, root, e, i, j).Some? ==>
      low <= Abs(DayEntry(matrix, offsets, rowCount, root, e, i, j).value) <= high
  }

  /** The total lies between as many times the least and the greatest daily value. */
  lemma {:induction false} SumBetween(
      matrix: Matrix, offsets: seq<nat>, rowCount: nat, root: real -> real, d: nat, i: nat, j: nat, low: real,
      high: real)
    requires Shaped(matrix, offsets, rowCount) && d < |offsets| && i < |matrix| && j < |matrix|
    requires DaysBetween(matrix, offsets, rowCount, root, d, i, j, low, high)
    ensures
      var days := DaysTo(matrix, offsets, rowCount, root, d, i, j) as real;
      Times(days, low) <= SumTo(matrix, offsets, rowCount, root, d, i, j) <= Times(days, high)
    decreases d
  {
    hide DayEntry, Shaped;
    if d == 0 {
      TimesZero(low);
      TimesZero(high);
    } else {
      SumBetween(matrix, offsets, rowCount, root, d - 1, i, j, low, high);
      var days := DaysTo(matrix, offsets, rowCount, root, d - 1, i, j) as real;
      OnceMore(days, low);
      OnceMore(days, high);
      hide Times;
    }
  }

  lemma {:induction false} OnceMore(n: real, x: real)
    ensures Times(n + 1.0, x) == Times(n, x) + x
  {
  }

  lemma {:induction false} QuotientBetween(s: real, n: real, low: real, high: real)
    requires n > 0.0 && Times(n, low) <= s <= Times(n, high)
    ensures low <= s / n <= high && s / n * n == s
  {
    var q := s / n;
    assert q * n == s;
    assert q < low ==> q * n < low * n;
    assert q > high ==> q * n > high * n;
  }

  // ----- similarity -----

  predicate SquareTotals(t: Totals) {
    && |t.absoluteSum| == |t.eligibleDays|
    && forall i :: 0 <= i < |t.absoluteSum| ==> |t.absoluteSum[i]| == |t.eligibleDays[i]| == |t.absoluteSum|
  }

  function PairMean(t: Totals, i: nat, j: nat): Option<real>
    requires SquareTotals(t) && i < |t.absoluteSum| && j < |t.absoluteSum|
  {
    if t.eligibleDays[i][j] < MIN_ELIGIBLE_DAYS then None
    else Some(t.absoluteSum[i][j] / t.eligibleDays[i][j] as real)
  }

  /** Mean absolute correlation per pair with enough days; the diagonal is 1. */
  method AssembleSimilarity(t: Totals) returns (sim: Similarity)
    requires SquareTotals(t)
    ensures sim.size == |t.absoluteSum| && sim.SquareShape() && sim.Symmetric()
    ensures forall i :: 0 <= i < sim.size ==> sim.At(i, i) == Some(1.0)
    ensures forall i, j :: 0 <= i < j < sim.size ==> sim.At(i, j) == PairMean(t, i, j)
  {
    hide PairMean;
    var n := |t.absoluteSum|;
    sim := Similarity(n, seq(n, (i: nat) => seq(n, (j: nat) => if i == j then Some(1.0) else None)));
    for left := 0 to n
      invariant sim.size == n && Filled(sim, t, left, 0)
    {
      for right := left + 1 to n
        invariant sim.size == n && Filled(sim, t, left, right)
      {
        var mean := PairMean(t, left, right);
        if mean.Some? {
          sim := WithPair(sim, left, right, mean);
        }
      }
    }
  }

  /** Both entries of an unordered pair set to the same value. */
  function WithPair(sim: Similarity, l: nat, r: nat, value: Option<real>): (after: Similarity)
    requires sim.SquareShape() && l < r < sim.size
    ensures after.SquareShape() && after.size == sim.size
    ensures forall i: nat, j: nat :: i < sim.size && j < sim.size ==>
      after.At(i, j) == if (i == l && j == r) || (i == r && j == l) then value else sim.At(i, j)
  {
    var rows := sim.rows[l := sim.rows[l][r := value]];
    Similarity(sim.size, rows[r := rows[r][l := value]])
  }

  /** The state of the double loop before it reaches the pair `(l, r)`. */
  ghost predicate Filled(sim: Similarity, t: Totals, l: nat, r: nat)
    requires SquareTotals(t) && |t.absoluteSum| == sim.size
  {
    && sim.SquareShape() && sim.Symmetric()
    && (forall i :: 0 <= i < sim.size ==> sim.At(i, i) == Some(1.0))
    && (forall i, j :: 0 <= i < j < sim.size && (i < l || (i == l && j < r)) ==> sim.At(i, j) == PairMean(t, i, j))
    && forall i, j :: 0 <= i < j < sim.size && (i > l || (i == l && j >= r)) ==> sim.At(i, j) == None
  }

  lemma {:induction false} QuotientInUnit(s: real, n: nat)
    requires 0.0 <= s <= n as real && n > 0
    ensures 0.0 <= s / n as real <= 1.0
  {
    DivideMonotone(0.0, s, n as real);
    DivideMonotone(s, n as real, n as real);
    assert n as real / n as real == 1.0;
    assert 0.0 / n as real == 0.0;
  }

  /** Every similarity that reaches the clustering lies in [0, 1], so every linkage distance does too. */
  lemma {:induction false} SimilaritiesInUnit(
      sim: Similarity, t: Totals, matrix: Matrix, offsets: seq<nat>, rowCount: nat, root: real -> real, d: nat,
      i: nat, j: nat)
    requires ExactTotals(t, matrix, offsets, rowCount, root, d) && IsSquareRoot(root)
    requires sim.size == |matrix| && sim.Symmetric() && i < sim.size && j < sim.size
    requires forall i :: 0 <= i < sim.size ==> sim.At(i, i) == Some(1.0)
    requires forall i, j :: 0 <= i < j < sim.size ==> sim.At(i, j) == PairMean(t, i, j)
    ensures sim.At(i, j).Some? ==> 0.0 <= sim.At(i, j).value <= 1.0
  {
    hide SumTo, DaysTo;
    var k, l := if i <= j then i else j, if i <= j then j else i;
    assert sim.At(i, j) == sim.At(k, l);
    if k < l && sim.At(k, l).Some? {
      TotalsBounded(matrix, offsets, rowCount, root, d, k, l);
      assert sim.At(k, l) == PairMean(t, k, l);
      QuotientInUnit(t.absoluteSum[k][l], t.eligibleDays[k][l]);
    }
  }

  lemma {:induction false} CrossDistanceInUnit(sim: Similarity, left: seq<nat>, right: seq<nat>, distance: real)
    requires IsCrossDistance(sim, left, right, distance)
    requires forall i, j :: i in left && j in right && sim.At(i, j).Some? ==> 0.0 <= sim.At(i, j).value <= 1.0
    ensures 0.0 <= distance <= 1.0
  {
  }
}
