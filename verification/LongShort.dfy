/** The paired cost-return series: on every holding date a cohort is ranked, the top fifth is held long and the bottom
    fifth short, and the turnover against the last traded book is charged.

    Instruments are numbered once for the whole run; an instrument without a signal on a date is absent from that
    cohort.
 */
module LongShort {
  import opened Values
  import opened RankCorrelation

  datatype Cohort = Cohort(signals: Column, labels: seq<real>)

  type Book = seq<real>

  const MIN_COHORT: nat := 10
  const MIN_COHORTS: nat := 30

  ghost predicate Panel(cohorts: seq<Cohort>, n: nat) {
    forall t :: 0 <= t < |cohorts| ==> |cohorts[t].signals| == |cohorts[t].labels| == n
  }

  // ----- one cohort -----

  /** Average rank as a fraction of the cohort's size. */
  function Percentile(col: Column, i: nat): real
    requires i < |col| && col[i].Some?
  {
    var n := Observed(col, |col|);
    if n == 0 then 0.0 else RankAt(col, i).value / n as real
  }

  predicate Long(col: Column, i: nat)
    requires i < |col|
  {
    col[i].Some? && Percentile(col, i) >= 0.8
  }

  predicate Short(col: Column, i: nat)
    requires i < |col|
  {
    col[i].Some? && Percentile(col, i) <= 0.2
  }

  function Longs(col: Column, k: nat): nat
    requires k <= |col|
  {
    if k == 0 then 0 else Longs(col, k - 1) + if Long(col, k - 1) then 1 else 0
  }

  function Shorts(col: Column, k: nat): nat
    requires k <= |col|
  {
    if k == 0 then 0 else Shorts(col, k - 1) + if Short(col, k - 1) then 1 else 0
  }

  predicate TwoSided(col: Column) {
    Longs(col, |col|) > 0 && Shorts(col, |col|) > 0
  }

  function Weight(col: Column, i: nat): real
    requires TwoSided(col) && i < |col|
  {
    if Long(col, i) then 1.0 / Longs(col, |col|) as real
    else if Short(col, i) then -1.0 / Shorts(col, |col|) as real
    else 0.0
  }

  function Weights(col: Column): (book: Book)
    requires TwoSided(col)
    ensures |book| == |col|
  {
    seq(|col|, i requires 0 <= i < |col| => Weight(col, i))
  }

  /** Every instrument held long has a higher signal than every instrument held short. */
  lemma {:induction false} LongsAboveShorts(col: Column, i: nat, j: nat)
    requires i < |col| && j < |col| && Long(col, i) && Short(col, j) && Observed(col, |col|) > 0
    ensures col[i].value > col[j].value
  {
    PercentileRank(col, i);
    PercentileRank(col, j);
    RanksFollowValues(col, i, j);
    hide RankAt;
    assert Ranks(col)[i].value == RankAt(col, i).value && Ranks(col)[j].value == RankAt(col, j).value;
  }

  lemma {:induction false} PercentileRank(col: Column, i: nat)
    requires i < |col| && col[i].Some? && Observed(col, |col|) > 0
    ensures Percentile(col, i) * Observed(col, |col|) as real == RankAt(col, i).value
    ensures Long(col, i) <==> RankAt(col, i).value >= 0.8 * Observed(col, |col|) as real
    ensures Short(col, i) <==> RankAt(col, i).value <= 0.2 * Observed(col, |col|) as real
  {
    var n := Observed(col, |col|) as real;
    QuotientOrder(RankAt(col, i).value, n, 0.8);
    QuotientOrder(RankAt(col, i).value, n, 0.2);
  }

  lemma {:induction false} QuotientOrder(x: real, n: real, c: real)
    requires n > 0.0
    ensures x / n * n == x
    ensures x / n >= c <==> x >= c * n
    ensures x / n <= c <==> x <= c * n
  {
    var y := x / n;
    assert y * n == x;
    assert y > c ==> y * n > c * n;
    assert y < c ==> y * n < c * n;
  }

  // ----- exact sums -----

  function Balance(xs: seq<real>): real {
    if xs == [] then 0.0 else Balance(xs[..|xs| - 1]) + xs[|xs| - 1]
  }

  function Exposure(xs: seq<real>): real {
    if xs == [] then 0.0 else Exposure(xs[..|xs| - 1]) + Abs(xs[|xs| - 1])
  }

  function Difference(a: Book, b: Book): Book
    requires |a| == |b|
  {
    seq(|a|, i requires 0 <= i < |a| => a[i] - b[i])
  }

  function Turnover(a: Book, b: Book): real
    requires |a| == |b|
  {
    0.5 * Exposure(Difference(a, b))
  }

  function Flat(n: nat): Book {
    seq(n, _ => 0.0)
  }

  lemma {:induction false} AbsoluteNonNegative(xs: seq<real>)
    ensures Exposure(xs) >= 0.0
    ensures Exposure(xs) == 0.0 ==> xs == Flat(|xs|)
  {
    if xs != [] {
      AbsoluteNonNegative(xs[..|xs| - 1]);
      if Exposure(xs) == 0.0 {
        assert xs == xs[..|xs| - 1] + [xs[|xs| - 1]];
      }
    }
  }

  lemma {:induction false} DifferenceFront(a: Book, b: Book)
    requires |a| == |b| > 0
    ensures Difference(a, b)[..|a| - 1] == Difference(a[..|a| - 1], b[..|a| - 1])
    ensures Difference(a, b)[|a| - 1] == a[|a| - 1] - b[|a| - 1]
  {
  }

  lemma {:induction false} DifferenceTriangle(a: Book, b: Book, c: Book)
    requires |a| == |b| == |c|
    ensures Exposure(Difference(a, c)) <= Exposure(Difference(a, b)) + Exposure(Difference(b, c))
    ensures Exposure(Difference(a, b)) == Exposure(Difference(b, a))
    ensures Exposure(Difference(a, Flat(|a|))) == Exposure(a)
  {
    if a != [] {
      var k := |a| - 1;
      DifferenceTriangle(a[..k], b[..k], c[..k]);
      DifferenceFront(a, b);
      DifferenceFront(b, a);
      DifferenceFront(b, c);
      DifferenceFront(a, c);
      DifferenceFront(a, Flat(|a|));
      assert Flat(|a|)[..k] == Flat(k);
      hide Difference;
    }
  }

  /** Turnover is a distance between books. */
  lemma {:induction false} TurnoverIsADistance(a: Book, b: Book, c: Book)
    requires |a| == |b| == |c|
    ensures Turnover(a, b) >= 0.0 && Turnover(a, b) == Turnover(b, a)
    ensures Turnover(a, c) <= Turnover(a, b) + Turnover(b, c)
    ensures Turnover(a, b) == 0.0 <==> a == b
  {
    DifferenceTriangle(a, b, c);
    AbsoluteNonNegative(Difference(a, b));
    if Turnover(a, b) == 0.0 {
      forall i | 0 <= i < |a|
        ensures a[i] == b[i]
      {
        assert Difference(a, b)[i] == 0.0;
      }
    }
    if a == b {
      assert Difference(a, b) == Flat(|a|);
      FlatIsNothing(|a|);
    }
  }

  lemma {:induction false} FlatIsNothing(n: nat)
    ensures Exposure(Flat(n)) == 0.0
  {
    if n > 0 {
      assert Flat(n)[..n - 1] == Flat(n - 1);
      FlatIsNothing(n - 1);
    }
  }

  // ----- the book is balanced -----

  lemma {:induction false} PrefixSums(xs: seq<real>, k: nat)
    requires k < |xs|
    ensures Balance(xs[..k + 1]) == Balance(xs[..k]) + xs[k]
    ensures Exposure(xs[..k + 1]) == Exposure(xs[..k]) + Abs(xs[k])
  {
    assert xs[..k + 1][..k] == xs[..k];
  }

  /** No instrument is on both sides. */
  lemma {:induction false} OneSide(col: Column, i: nat, a: real, b: real)
    requires TwoSided(col) && i < |col| && Observed(col, |col|) > 0
    requires a == 1.0 / Longs(col, |col|) as real && b == 1.0 / Shorts(col, |col|) as real
    ensures !(Long(col, i) && Short(col, i))
    ensures Weights(col)[i] == if Long(col, i) then a else if Short(col, i) then -b else 0.0
  {
    hide Percentile;
    if Long(col, i) && Short(col, i) {
      LongsAboveShorts(col, i, i);
    }
  }

  /** The share each side has received among the first `k` instruments. */
  lemma {:induction false} WeightsSoFar(col: Column, k: nat, a: real, b: real)
    requires TwoSided(col) && k <= |col| && Observed(col, |col|) > 0
    requires a == 1.0 / Longs(col, |col|) as real && b == 1.0 / Shorts(col, |col|) as real
    requires a > 0.0 && b > 0.0
    ensures Balance(Weights(col)[..k]) == Share(Longs(col, k), a) - Share(Shorts(col, k), b)
    ensures Exposure(Weights(col)[..k]) == Share(Longs(col, k), a) + Share(Shorts(col, k), b)
  {
    hide Long, Short, Weights, TwoSided;
    if k > 0 {
      WeightsSoFar(col, k - 1, a, b);
      PrefixSums(Weights(col), k - 1);
      OneSide(col, k - 1, a, b);
      OneMore(Longs(col, k - 1), a);
      OneMore(Shorts(col, k - 1), b);
      hide Share, Balance, Exposure, Observed;
    }
  }

  function Share(n: nat, a: real): real {
    n as real * a
  }

  lemma {:induction false} OneMore(n: nat, a: real)
    ensures Share(n + 1, a) == Share(n, a) + a
  {
  }

  /** Weights sum to zero and their absolute values to two. */
  lemma {:induction false} Balanced(col: Column)
    requires TwoSided(col) && Observed(col, |col|) > 0
    ensures Balance(Weights(col)) == 0.0 && Exposure(Weights(col)) == 2.0
  {
    hide Weights, Longs, Shorts;
    var l, s := Longs(col, |col|) as real, Shorts(col, |col|) as real;
    Reciprocal(l);
    Reciprocal(s);
    WeightsSoFar(col, |col|, 1.0 / l, 1.0 / s);
    assert Weights(col)[..|col|] == Weights(col);
  }

  lemma {:induction false} Reciprocal(n: real)
    requires n > 0.0
    ensures 1.0 / n > 0.0 && n * (1.0 / n) == 1.0
  {
  }

  /** Between any two traded books turnover is at most two; from an empty book it is exactly one. */
  lemma {:induction false} TurnoverBounds(col: Column, earlier: Column)
    requires TwoSided(col) && Observed(col, |col|) > 0
    requires TwoSided(earlier) && Observed(earlier, |earlier|) > 0 && |earlier| == |col|
    ensures 0.0 <= Turnover(Weights(col), Weights(earlier)) <= 2.0
    ensures Turnover(Weights(col), Flat(|col|)) == 1.0
  {
    hide Weights;
    Balanced(col);
    Balanced(earlier);
    var a, b, z := Weights(col), Weights(earlier), Flat(|col|);
    TurnoverIsADistance(a, z, b);
    TurnoverIsADistance(a, b, z);
    DifferenceTriangle(a, z, z);
    DifferenceTriangle(b, z, z);
    TurnoverIsADistance(b, z, z);
  }

  // ----- gross return -----

  function Earned(weight: real, realised: real): real {
    weight * realised
  }

  function Gross(book: Book, labels: seq<real>, k: nat): real
    requires |book| == |labels| && k <= |book|
  {
    if k == 0 then 0.0 else Gross(book, labels, k - 1) + Earned(book[k - 1], labels[k - 1])
  }

  /** Sum of the labels of one side. */
  function SideSum(c: Cohort, k: nat, longSide: bool): real
    requires k <= |c.signals| == |c.labels|
  {
    if k == 0 then 0.0
    else
      SideSum(c, k - 1, longSide)
      + if (if longSide then Long(c.signals, k - 1) else Short(c.signals, k - 1)) then c.labels[k - 1] else 0.0
  }

  function SideMean(c: Cohort, longSide: bool): real
    requires |c.signals| == |c.labels| && TwoSided(c.signals)
  {
    var n := |c.signals|;
    SideSum(c, n, longSide) / (if longSide then Longs(c.signals, n) else Shorts(c.signals, n)) as real
  }

  lemma {:induction false} GrossSoFar(c: Cohort, k: nat, a: real, b: real)
    requires |c.labels| == |c.signals| && TwoSided(c.signals) && k <= |c.signals|
    requires Observed(c.signals, |c.signals|) > 0
    requires a == 1.0 / Longs(c.signals, |c.signals|) as real && b == 1.0 / Shorts(c.signals, |c.signals|) as real
    ensures Gross(Weights(c.signals), c.labels, k) == Earned(a, SideSum(c, k, true)) - Earned(b, SideSum(c, k, false))
  {
    EarnedFacts(a, 0.0, 0.0);
    EarnedFacts(b, 0.0, 0.0);
    if k > 0 {
      GrossSoFar(c, k - 1, a, b);
      OneSide(c.signals, k - 1, a, b);
      hide Long, Short, Weights, TwoSided, Earned, Observed, Longs, Shorts;
      EarnedFacts(a, SideSum(c, k - 1, true), c.labels[k - 1]);
      EarnedFacts(b, SideSum(c, k - 1, false), c.labels[k - 1]);
    }
  }

  lemma {:induction false} EarnedFacts(a: real, x: real, y: real)
    ensures Earned(a, x + y) == Earned(a, x) + Earned(a, y)
    ensures Earned(-a, y) == -Earned(a, y)
    ensures Earned(0.0, y) == 0.0 == Earned(a, 0.0)
  {
  }

  /** The cohort earns the mean label of its long side minus the mean label of its short side. */
  lemma {:induction false} GrossIsSpread(c: Cohort)
    requires |c.labels| == |c.signals| && TwoSided(c.signals) && Observed(c.signals, |c.signals|) > 0
    ensures Gross(Weights(c.signals), c.labels, |c.signals|) == SideMean(c, true) - SideMean(c, false)
  {
    hide Longs, Shorts, SideSum, Weights, Gross, Earned;
    var n := |c.signals|;
    var l, s := Longs(c.signals, n) as real, Shorts(c.signals, n) as real;
    GrossSoFar(c, n, 1.0 / l, 1.0 / s);
    OverShare(SideSum(c, n, true), l);
    OverShare(SideSum(c, n, false), s);
  }

  lemma {:induction false} OverShare(x: real, n: real)
    requires n > 0.0
    ensures x / n == Earned(1.0 / n, x)
  {
  }

  // ----- the whole series -----

  predicate Traded(cohorts: seq<Cohort>, holding: int, t: nat)
    requires holding != 0 && t < |cohorts|
  {
    var col := cohorts[t].signals;
    t % holding == 0 && Observed(col, |col|) >= MIN_COHORT && TwoSided(col)
  }

  /** The last traded date before `t`. */
  function LastTraded(cohorts: seq<Cohort>, holding: int, t: nat): (last: Option<nat>)
    requires holding != 0 && t <= |cohorts|
    ensures last.Some? ==> last.value < t && Traded(cohorts, holding, last.value)
  {
    if t == 0 then None
    else if Traded(cohorts, holding, t - 1) then Some(t - 1)
    else LastTraded(cohorts, holding, t - 1)
  }

  /** The book held before date `t`: nothing before the first trade. */
  function Held(cohorts: seq<Cohort>, holding: int, n: nat, t: nat): (book: Book)
    requires holding != 0 && t <= |cohorts| && Panel(cohorts, n)
    ensures |book| == n
  {
    var last := LastTraded(cohorts, holding, t);
    if last.None? then Flat(n) else Weights(cohorts[last.value].signals)
  }

  /** What is traded on a date: the way from the last traded book to the new one. */
  function TradedTurnover(cohorts: seq<Cohort>, holding: int, n: nat, t: nat): real
    requires holding != 0 && t < |cohorts| && Panel(cohorts, n) && Traded(cohorts, holding, t)
  {
    Turnover(Weights(cohorts[t].signals), Held(cohorts, holding, n, t))
  }

  function NetReturn(cohorts: seq<Cohort>, holding: int, n: nat, costRate: real, t: nat): real
    requires holding != 0 && t < |cohorts| && Panel(cohorts, n) && Traded(cohorts, holding, t)
  {
    AfterCosts(Gross(Weights(cohorts[t].signals), cohorts[t].labels, n), TradedTurnover(cohorts, holding, n, t),
               costRate)
  }

  function AfterCosts(gross: real, turnover: real, costRate: real): real {
    gross - turnover * costRate
  }

  function NetReturns(cohorts: seq<Cohort>, holding: int, n: nat, costRate: real, t: nat): seq<(nat, real)>
    requires holding != 0 && t <= |cohorts| && Panel(cohorts, n)
  {
    if t == 0 then []
    else
      NetReturns(cohorts, holding, n, costRate, t - 1)
      + if Traded(cohorts, holding, t - 1) then [(t - 1, NetReturn(cohorts, holding, n, costRate, t - 1))] else []
  }

  // ----- what the series says -----

  function TotalTurnover(cohorts: seq<Cohort>, holding: int, n: nat, t: nat): real
    requires holding != 0 && t <= |cohorts| && Panel(cohorts, n)
  {
    if t == 0 then 0.0
    else
      TotalTurnover(cohorts, holding, n, t - 1)
      + if Traded(cohorts, holding, t - 1)
        then TradedTurnover(cohorts, holding, n, t - 1) else 0.0
  }

  /** What the cohort of a traded date earns before costs. */
  function Spread(cohorts: seq<Cohort>, holding: int, n: nat, t: nat): real
    requires holding != 0 && t < |cohorts| && Panel(cohorts, n) && Traded(cohorts, holding, t)
  {
    SideMean(cohorts[t], true) - SideMean(cohorts[t], false)
  }

  function TotalSpread(cohorts: seq<Cohort>, holding: int, n: nat, t: nat): real
    requires holding != 0 && t <= |cohorts| && Panel(cohorts, n)
  {
    if t == 0 then 0.0
    else
      TotalSpread(cohorts, holding, n, t - 1)
      + if Traded(cohorts, holding, t - 1) then Spread(cohorts, holding, n, t - 1) else 0.0
  }

  function TotalNet(series: seq<(nat, real)>): real {
    if series == [] then 0.0 else TotalNet(series[..|series| - 1]) + series[|series| - 1].1
  }

  /** The entries are the traded dates, in order. */
  ghost predicate TradedDates(cohorts: seq<Cohort>, holding: int, n: nat, t: nat, series: seq<(nat, real)>)
    requires holding != 0 && t <= |cohorts| && Panel(cohorts, n)
  {
    && (forall k :: 0 <= k < |series| ==> series[k].0 < t && Traded(cohorts, holding, series[k].0))
    && (forall d :: 0 <= d < t && Traded(cohorts, holding, d) ==> exists k :: 0 <= k < |series| && series[k].0 == d)
    && forall k, l :: 0 <= k < l < |series| ==> series[k].0 < series[l].0
  }

  /** Costs are charged against what was earned: on every date, and over the whole series. */
  ghost predicate ChargesCosts(cohorts: seq<Cohort>, holding: int, n: nat, costRate: real, t: nat,
                               series: seq<(nat, real)>)
    requires holding != 0 && t <= |cohorts| && Panel(cohorts, n)
  {
    && TradedDates(cohorts, holding, n, t, series)
    && (forall k :: 0 <= k < |series| ==>
          Spread(cohorts, holding, n, series[k].0) - series[k].1
          == Earned(TradedTurnover(cohorts, holding, n, series[k].0), costRate))
    && TotalSpread(cohorts, holding, n, t) - TotalNet(series)
       == Earned(TotalTurnover(cohorts, holding, n, t), costRate)
  }

  /** What one more traded date adds. */
  lemma {:induction false} NetOfDate(cohorts: seq<Cohort>, holding: int, n: nat, costRate: real, t: nat)
    requires holding != 0 && t < |cohorts| && Panel(cohorts, n) && Traded(cohorts, holding, t)
    ensures Spread(cohorts, holding, n, t) - NetReturn(cohorts, holding, n, costRate, t)
      == Earned(TradedTurnover(cohorts, holding, n, t), costRate)
    ensures TradedTurnover(cohorts, holding, n, t) >= 0.0
  {
    hide Observed, TwoSided, Weights, Gross, Held, SideMean;
    GrossIsSpread(cohorts[t]);
    AbsoluteNonNegative(Difference(Weights(cohorts[t].signals), Held(cohorts, holding, n, t)));
  }

  lemma {:induction false} OneMoreDate(cohorts: seq<Cohort>, holding: int, n: nat, t: nat, series: seq<(nat, real)>,
                                       net: real)
    requires holding != 0 && t < |cohorts| && Panel(cohorts, n) && Traded(cohorts, holding, t)
    requires TradedDates(cohorts, holding, n, t, series)
    ensures TradedDates(cohorts, holding, n, t + 1, series + [(t, net)])
  {
    hide Traded;
    var longer := series + [(t, net)];
    forall d | 0 <= d < t + 1 && Traded(cohorts, holding, d)
      ensures exists k :: 0 <= k < |longer| && longer[k].0 == d
    {
      if d == t {
        assert longer[|series|].0 == d;
      } else {
        var k :| 0 <= k < |series| && series[k].0 == d;
        assert longer[k].0 == d;
      }
    }
  }

  lemma {:induction false} TotalNetStep(series: seq<(nat, real)>, last: (nat, real))
    ensures TotalNet(series + [last]) == TotalNet(series) + last.1
  {
    assert (series + [last])[..|series|] == series;
  }

  lemma {:induction false} OneMoreCharge(cohorts: seq<Cohort>, holding: int, n: nat, costRate: real, t: nat,
                                         series: seq<(nat, real)>, net: real)
    requires holding != 0 && t < |cohorts| && Panel(cohorts, n) && Traded(cohorts, holding, t)
    requires ChargesCosts(cohorts, holding, n, costRate, t, series)
    requires Spread(cohorts, holding, n, t) - net == Earned(TradedTurnover(cohorts, holding, n, t), costRate)
    ensures ChargesCosts(cohorts, holding, n, costRate, t + 1, series + [(t, net)])
  {
    hide Traded, Spread, TradedTurnover;
    OneMoreDate(cohorts, holding, n, t, series, net);
    hide TradedDates;
    TotalNetStep(series, (t, net));
    EarnedOfBoth(TotalTurnover(cohorts, holding, n, t), TradedTurnover(cohorts, holding, n, t), costRate);
    hide Earned, TotalNet;
  }

  lemma {:induction false} EarnedOfBoth(x: real, y: real, rate: real)
    ensures Earned(x + y, rate) == Earned(x, rate) + Earned(y, rate)
  {
  }

  lemma {:induction false} NoCharge(cohorts: seq<Cohort>, holding: int, n: nat, costRate: real, t: nat,
                                    series: seq<(nat, real)>)
    requires holding != 0 && t < |cohorts| && Panel(cohorts, n) && !Traded(cohorts, holding, t)
    requires ChargesCosts(cohorts, holding, n, costRate, t, series)
    ensures ChargesCosts(cohorts, holding, n, costRate, t + 1, series)
  {
    hide Traded, Spread, TradedTurnover, Earned, TotalNet;
  }

  lemma {:induction false} NothingCharged(cohorts: seq<Cohort>, holding: int, n: nat, costRate: real)
    requires holding != 0 && Panel(cohorts, n)
    ensures ChargesCosts(cohorts, holding, n, costRate, 0, [])
  {
    hide Traded, Spread, TradedTurnover;
  }

  /** The whole series charges its costs. */
  lemma {:induction false} SeriesChargesCosts(cohorts: seq<Cohort>, holding: int, n: nat, costRate: real, t: nat)
    requires holding != 0 && t <= |cohorts| && Panel(cohorts, n)
    ensures ChargesCosts(cohorts, holding, n, costRate, t, NetReturns(cohorts, holding, n, costRate, t))
  {
    hide Traded, Spread, TradedTurnover, NetReturn, ChargesCosts;
    if t == 0 {
      NothingCharged(cohorts, holding, n, costRate);
    } else {
      var before := NetReturns(cohorts, holding, n, costRate, t - 1);
      SeriesChargesCosts(cohorts, holding, n, costRate, t - 1);
      if Traded(cohorts, holding, t - 1) {
        NetOfDate(cohorts, holding, n, costRate, t - 1);
        OneMoreCharge(cohorts, holding, n, costRate, t - 1, before, NetReturn(cohorts, holding, n, costRate, t - 1));
      } else {
        NoCharge(cohorts, holding, n, costRate, t - 1, before);
        assert before + [] == before;
      }
    }
  }

  /** A higher rate pays on no date, and without costs every date pays its spread. */
  lemma {:induction false} RatesOnlyCharge(cohorts: seq<Cohort>, holding: int, n: nat, low: real, high: real, t: nat)
    requires holding != 0 && t <= |cohorts| && Panel(cohorts, n) && low <= high
    ensures
      var a, b := NetReturns(cohorts, holding, n, low, t), NetReturns(cohorts, holding, n, high, t);
      && |a| == |b|
      && forall k :: 0 <= k < |a| ==>
        && a[k].0 == b[k].0 < t && Traded(cohorts, holding, a[k].0) && b[k].1 <= a[k].1
        && (low == 0.0 ==> a[k].1 == Spread(cohorts, holding, n, a[k].0))
  {
    hide Traded, Spread, TradedTurnover, NetReturn;
    if t > 0 {
      RatesOnlyCharge(cohorts, holding, n, low, high, t - 1);
      if Traded(cohorts, holding, t - 1) {
        NetOfDate(cohorts, holding, n, low, t - 1);
        NetOfDate(cohorts, holding, n, high, t - 1);
        DearerRate(TradedTurnover(cohorts, holding, n, t - 1), low, high);
        hide Earned;
      }
    }
  }

  lemma {:induction false} DearerRate(turnover: real, low: real, high: real)
    requires turnover >= 0.0 && low <= high
    ensures Earned(turnover, low) <= Earned(turnover, high)
    ensures low == 0.0 ==> Earned(turnover, low) == 0.0
  {
  }

  datatype SeriesError = TooFewCohorts

  /** The first trade is charged a turnover of one, and this is what trading out of an empty book would cost. */
  method DailyLongShortNet(cohorts: seq<Cohort>, holding: int, n: nat, costRate: real)
    returns (r: Result<seq<(nat, real)>, SeriesError>)
    requires holding != 0 && Panel(cohorts, n)
    ensures r == var values := NetReturns(cohorts, holding, n, costRate, |cohorts|);
      if |values| < MIN_COHORTS then Err(TooFewCohorts) else Ok(values)
    ensures r.Ok? ==> ChargesCosts(cohorts, holding, n, costRate, |cohorts|, r.value)
  {
    var previous: Option<Book> := None;
    var values: seq<(nat, real)> := [];
    hide Observed, TwoSided, Weights, Turnover, Gross, AfterCosts;
    for t := 0 to |cohorts|
      invariant values == NetReturns(cohorts, holding, n, costRate, t)
      invariant previous.None? <==> LastTraded(cohorts, holding, t).None?
      invariant previous.Some? ==> previous.value == Held(cohorts, holding, n, t)
    {
      var col := cohorts[t].signals;
      if t % holding != 0 || Observed(col, n) < MIN_COHORT {
        continue;
      }
      if !TwoSided(col) {
        continue;
      }
      var book := Weights(col);
      var gross := Gross(book, cohorts[t].labels, n);
      var turnover := 1.0;
      if previous.Some? {
        turnover := Turnover(book, previous.value);
      } else {
        TurnoverBounds(col, col);
      }
      previous := Some(book);
      values := values + [(t, AfterCosts(gross, turnover, costRate))];
    }
    SeriesChargesCosts(cohorts, holding, n, costRate, |cohorts|) by {
      hide ChargesCosts;
    }
    r := if |values| < MIN_COHORTS then Err(TooFewCohorts) else Ok(values);
  }

  // ----- what the series depends on, and what it can cost -----

  /** Over a whole run the first trade costs one and no later one more than two. */
  lemma {:induction false} TurnoverIsBounded(cohorts: seq<Cohort>, holding: int, n: nat, costRate: real, t: nat)
    requires holding != 0 && t <= |cohorts| && Panel(cohorts, n)
    ensures 0.0 <= TotalTurnover(cohorts, holding, n, t)
    ensures
      var trades := |NetReturns(cohorts, holding, n, costRate, t)|;
      && (trades == 0 <==> LastTraded(cohorts, holding, t).None?)
      && (trades > 0 ==> 1.0 <= TotalTurnover(cohorts, holding, n, t) <= 2.0 * trades as real - 1.0)
      && (trades == 0 ==> TotalTurnover(cohorts, holding, n, t) == 0.0)
  {
    hide Observed, TwoSided, Weights, Turnover, NetReturn;
    if t > 0 {
      TurnoverIsBounded(cohorts, holding, n, costRate, t - 1);
      if Traded(cohorts, holding, t - 1) {
        var col, last := cohorts[t - 1].signals, LastTraded(cohorts, holding, t - 1);
        TurnoverBounds(col, if last.None? then col else cohorts[last.value].signals);
      }
    }
  }

  lemma {:induction false} HeldNext(cohorts: seq<Cohort>, holding: int, n: nat, t: nat)
    requires holding != 0 && t < |cohorts| && Panel(cohorts, n)
    ensures Traded(cohorts, holding, t) ==> TwoSided(cohorts[t].signals)
    ensures Held(cohorts, holding, n, t + 1)
      == if Traded(cohorts, holding, t) then Weights(cohorts[t].signals) else Held(cohorts, holding, n, t)
  {
    hide TwoSided, Weights;
  }

  ghost predicate SameOrder(a: Cohort, b: Cohort) {
    OrderIsomorphic(a.signals, b.signals) && a.labels == b.labels
  }

  lemma {:induction false} SameObserved(x: Column, y: Column, k: nat)
    requires OrderIsomorphic(x, y) && k <= |x|
    ensures Observed(x, k) == Observed(y, k)
  {
    if k > 0 {
      SameObserved(x, y, k - 1);
    }
  }

  lemma {:induction false} SameSides(x: Column, y: Column, k: nat)
    requires OrderIsomorphic(x, y) && k <= |x|
    ensures forall i :: 0 <= i < |x| ==> Long(x, i) == Long(y, i) && Short(x, i) == Short(y, i)
    ensures Longs(x, k) == Longs(y, k) && Shorts(x, k) == Shorts(y, k)
  {
    SameObserved(x, y, |x|);
    RanksSeeOnlyOrder(x, y);
    forall i | 0 <= i < |x|
      ensures RankAt(x, i) == RankAt(y, i)
    {
      assert Ranks(x)[i] == Ranks(y)[i];
    }
    hide RankAt;
    if k > 0 {
      SameSides(x, y, k - 1);
    }
  }

  lemma {:induction false} SameWeights(x: Column, y: Column)
    requires OrderIsomorphic(x, y)
    ensures Observed(x, |x|) == Observed(y, |y|) && TwoSided(x) == TwoSided(y)
    ensures TwoSided(x) ==> Weights(x) == Weights(y)
  {
    SameObserved(x, y, |x|);
    SameSides(x, y, |x|);
    hide Long, Short, Longs, Shorts;
  }

  /** The series sees only the order of the predictions within each date: any daily increasing rescaling vanishes. */
  lemma {:induction false} SeriesSeesOnlyOrder(a: seq<Cohort>, b: seq<Cohort>, holding: int, n: nat,
                                               costRate: real, t: nat)
    requires holding != 0 && |a| == |b| && t <= |a| && Panel(a, n) && Panel(b, n)
    requires forall d :: 0 <= d < |a| ==> SameOrder(a[d], b[d])
    ensures NetReturns(a, holding, n, costRate, t) == NetReturns(b, holding, n, costRate, t)
    ensures LastTraded(a, holding, t) == LastTraded(b, holding, t)
    ensures Held(a, holding, n, t) == Held(b, holding, n, t)
  {
    hide Observed, TwoSided, Weights, Turnover, Gross, OrderIsomorphic, AfterCosts;
    if t > 0 {
      SeriesSeesOnlyOrder(a, b, holding, n, costRate, t - 1);
      assert SameOrder(a[t - 1], b[t - 1]);
      SameWeights(a[t - 1].signals, b[t - 1].signals);
      assert Traded(a, holding, t - 1) == Traded(b, holding, t - 1);
      assert Traded(a, holding, t - 1) ==>
        NetReturn(a, holding, n, costRate, t - 1) == NetReturn(b, holding, n, costRate, t - 1);
      hide NetReturn, Held, Traded;
      HeldNext(a, holding, n, t - 1);
      HeldNext(b, holding, n, t - 1);
    }
  }

  // ----- how many instruments each side holds -----

  ghost predicate DistinctSignals(col: Column) {
    forall i, j :: 0 <= i < j < |col| && col[i].Some? && col[j].Some? ==> col[i] != col[j]
  }

  function Position(col: Column, i: nat): nat
    requires i < |col| && col[i].Some?
  {
    CountBelow(col, col[i].value, |col|)
  }

  lemma {:induction false} EqualOnce(col: Column, i: nat, k: nat)
    requires DistinctSignals(col) && i < |col| && col[i].Some? && k <= |col|
    ensures CountEqual(col, col[i].value, k) == if i < k then 1 else 0
  {
    if k > 0 {
      EqualOnce(col, i, k - 1);
      if k - 1 != i && col[k - 1] == col[i] {
        assert false;
      }
    }
  }

  lemma {:induction false} CountBelowObserved(col: Column, v: real, k: nat)
    requires k <= |col|
    ensures CountBelow(col, v, k) + CountEqual(col, v, k) <= Observed(col, k)
  {
    if k > 0 {
      CountBelowObserved(col, v, k - 1);
    }
  }

  function PresentBelow(col: Column, k: nat): set<nat>
    requires k <= |col|
  {
    set i: nat | i < k && col[i].Some?
  }

  lemma {:induction false} ObservedIsSize(col: Column, k: nat)
    requires k <= |col|
    ensures |PresentBelow(col, k)| == Observed(col, k)
  {
    if k > 0 {
      ObservedIsSize(col, k - 1);
      assert PresentBelow(col, k) == PresentBelow(col, k - 1) + if col[k - 1].Some? then {k - 1} else {};
    }
  }

  /** Distinct signals have distinct positions, below the cohort's size. */
  lemma {:induction false} PositionsDiffer(col: Column, i: nat, j: nat)
    requires DistinctSignals(col) && i < |col| && j < |col| && col[i].Some? && col[j].Some?
    ensures Position(col, i) < Observed(col, |col|)
    ensures Position(col, i) == Position(col, j) ==> i == j
  {
    EqualOnce(col, i, |col|);
    EqualOnce(col, j, |col|);
    CountBelowObserved(col, col[i].value, |col|);
    if i != j {
      if col[i].value < col[j].value {
        CountsBelowHigher(col, col[i].value, col[j].value, |col|);
      } else if col[j].value < col[i].value {
        CountsBelowHigher(col, col[j].value, col[i].value, |col|);
      }
    }
  }

  /** The instruments among `from` whose position lies in `[lo, hi)`. */
  function Slots(col: Column, from: set<nat>, lo: nat, hi: nat): set<nat>
    requires forall i :: i in from ==> i < |col| && col[i].Some?
  {
    set i | i in from && lo <= Position(col, i) < hi
  }

  lemma {:induction false} SlotHoldsOne(col: Column, from: set<nat>, p: nat)
    requires DistinctSignals(col) && forall i :: i in from ==> i < |col| && col[i].Some?
    ensures |Slots(col, from, p, p + 1)| <= 1
  {
    var slot := Slots(col, from, p, p + 1);
    if slot != {} {
      var i :| i in slot;
      forall j | j in slot
        ensures j == i
      {
        PositionsDiffer(col, i, j);
      }
      assert slot == {i};
    }
  }

  lemma {:induction false} SlotsBound(col: Column, from: set<nat>, lo: nat, hi: nat)
    requires DistinctSignals(col) && lo <= hi && forall i :: i in from ==> i < |col| && col[i].Some?
    ensures |Slots(col, from, lo, hi)| <= hi - lo
    decreases hi - lo
  {
    if lo == hi {
      assert Slots(col, from, lo, hi) == {};
    } else {
      SlotsBound(col, from, lo, hi - 1);
      SlotHoldsOne(col, from, hi - 1);
      assert Slots(col, from, lo, hi) == Slots(col, from, lo, hi - 1) + Slots(col, from, hi - 1, hi);
    }
  }

  /** Every position below the cohort's size is taken exactly once. */
  lemma {:induction false} SlotsFull(col: Column, lo: nat, hi: nat)
    requires DistinctSignals(col) && lo <= hi <= Observed(col, |col|)
    ensures |Slots(col, PresentBelow(col, |col|), lo, hi)| == hi - lo
  {
    var all, n := PresentBelow(col, |col|), Observed(col, |col|);
    SlotsBound(col, all, 0, lo);
    SlotsBound(col, all, lo, hi);
    SlotsBound(col, all, hi, n);
    ObservedIsSize(col, |col|);
    forall i | i in all
      ensures Position(col, i) < n
    {
      PositionsDiffer(col, i, i);
    }
    hide Position, Observed, PresentBelow;
    assert all == Slots(col, all, 0, lo) + Slots(col, all, lo, hi) + Slots(col, all, hi, n);
  }

  /** With distinct signals a side is decided by position: the last `n/5 + 1` positions are long, the first `n/5`
      short. */
  lemma {:induction false} SideByPosition(col: Column, i: nat)
    requires DistinctSignals(col) && i < |col| && col[i].Some? && Observed(col, |col|) > 0
    ensures Long(col, i) <==> Position(col, i) >= Observed(col, |col|) - Observed(col, |col|) / 5 - 1
    ensures Short(col, i) <==> Position(col, i) < Observed(col, |col|) / 5
  {
    EqualOnce(col, i, |col|);
    PercentileRank(col, i);
    FifthOf(Position(col, i), Observed(col, |col|));
  }

  lemma {:induction false} FifthOf(position: nat, n: nat)
    ensures position as real + 1.0 >= 0.8 * n as real <==> position >= n - n / 5 - 1
    ensures position as real + 1.0 <= 0.2 * n as real <==> position < n / 5
  {
    assert position as real + 1.0 >= 0.8 * n as real <==> 5 * position + 5 >= 4 * n;
    assert position as real + 1.0 <= 0.2 * n as real <==> 5 * position + 5 <= n;
  }

  predicate OnSide(col: Column, i: nat, longSide: bool)
    requires i < |col|
  {
    if longSide then Long(col, i) else Short(col, i)
  }

  function Side(col: Column, k: nat, longSide: bool): set<nat>
    requires k <= |col|
  {
    set i: nat | i < k && OnSide(col, i, longSide)
  }

  lemma {:induction false} SideStep(col: Column, k: nat, longSide: bool)
    requires k < |col|
    ensures Side(col, k + 1, longSide) == Side(col, k, longSide) + if OnSide(col, k, longSide) then {k} else {}
    ensures k !in Side(col, k, longSide)
  {
    hide OnSide;
  }

  lemma {:induction false} SideIsSize(col: Column, k: nat, longSide: bool)
    requires k <= |col|
    ensures |Side(col, k, longSide)| == if longSide then Longs(col, k) else Shorts(col, k)
  {
    hide Long, Short;
    if k > 0 {
      SideIsSize(col, k - 1, longSide);
      SideStep(col, k - 1, longSide);
      hide Side;
    }
  }

  /** Without ties the short side holds a fifth of the cohort and the long side one more, so any large enough cohort
      trades. */
  lemma {:induction false} SideSizes(col: Column)
    requires DistinctSignals(col) && Observed(col, |col|) > 0
    ensures Longs(col, |col|) == Observed(col, |col|) / 5 + 1
    ensures Shorts(col, |col|) == Observed(col, |col|) / 5
    ensures Observed(col, |col|) >= MIN_COHORT ==> TwoSided(col)
  {
    var n := Observed(col, |col|);
    var all := PresentBelow(col, |col|);
    SideIsSize(col, |col|, true);
    SideIsSize(col, |col|, false);
    SlotsFull(col, 0, n / 5);
    SlotsFull(col, n - n / 5 - 1, n);
    forall i: nat | i < |col| && col[i].Some?
      ensures Position(col, i) < n
      ensures Long(col, i) <==> Position(col, i) >= n - n / 5 - 1
      ensures Short(col, i) <==> Position(col, i) < n / 5
    {
      PositionsDiffer(col, i, i);
      SideByPosition(col, i);
    }
    hide Position, Percentile, Observed, Longs, Shorts;
    assert Side(col, |col|, true) == Slots(col, all, n - n / 5 - 1, n);
    assert Side(col, |col|, false) == Slots(col, all, 0, n / 5);
  }
}
