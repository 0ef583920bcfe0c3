/** Daily rank correlation with pairwise-complete observations.

    Every factor is ranked once in its own daily universe (average ranks, missing values keep no rank).  The script then
    computes all pairwise Pearson coefficients at once from masked matrix products.  Here the masked formula is compared
    with the textbook one over the rows that both factors observe.  Arithmetic is exact; the square root is a function
    `root` of which only the defining property is used.
 */
module RankCorrelation {
  import opened Values

  type Column = seq<Option<real>>

  const MIN_DAILY_INSTRUMENTS: nat := 20

  // ----- ranks -----

  function CountBelow(col: Column, v: real, k: nat): nat
    requires k <= |col|
  {
    if k == 0 then 0
    else CountBelow(col, v, k - 1) + if col[k - 1].Some? && col[k - 1].value < v then 1 else 0
  }

  function CountEqual(col: Column, v: real, k: nat): nat
    requires k <= |col|
  {
    if k == 0 then 0
    else CountEqual(col, v, k - 1) + if col[k - 1] == Some(v) then 1 else 0
  }

  /** Average rank of row `i`: ties share the mean of the ranks they occupy. */
  function RankAt(col: Column, i: nat): Option<real>
    requires i < |col|
  {
    if col[i].None? then None
    else
      var below, equal := CountBelow(col, col[i].value, |col|), CountEqual(col, col[i].value, |col|);
      Some(below as real + (equal as real + 1.0) / 2.0)
  }

  function Ranks(col: Column): (ranks: Column)
    ensures |ranks| == |col|
    ensures forall i :: 0 <= i < |col| ==> (ranks[i].Some? <==> col[i].Some?)
  {
    seq(|col|, i requires 0 <= i < |col| => RankAt(col, i))
  }

  lemma {:induction false} CountsBelowHigher(col: Column, v: real, w: real, k: nat)
    requires k <= |col| && v < w
    ensures CountBelow(col, v, k) + CountEqual(col, v, k) <= CountBelow(col, w, k)
  {
    if k > 0 {
      CountsBelowHigher(col, v, w, k - 1);
    }
  }

  lemma {:induction false} PresentCounts(col: Column, i: nat, k: nat)
    requires i < k <= |col| && col[i].Some?
    ensures CountEqual(col, col[i].value, k) >= 1
  {
    if i < k - 1 {
      PresentCounts(col, i, k - 1);
    }
  }

  /** Ranks order rows exactly as the values do, ties included. */
  lemma {:induction false} RanksFollowValues(col: Column, i: nat, j: nat)
    requires i < |col| && j < |col| && col[i].Some? && col[j].Some?
    ensures Ranks(col)[i].value < Ranks(col)[j].value <==> col[i].value < col[j].value
    ensures Ranks(col)[i].value == Ranks(col)[j].value <==> col[i].value == col[j].value
  {
    PresentCounts(col, i, |col|);
    PresentCounts(col, j, |col|);
    if col[i].value < col[j].value {
      CountsBelowHigher(col, col[i].value, col[j].value, |col|);
    } else if col[j].value < col[i].value {
      CountsBelowHigher(col, col[j].value, col[i].value, |col|);
    }
  }

  // ----- ties share the ranks they occupy -----

  function Observed(col: Column, k: nat): nat
    requires k <= |col|
  {
    if k == 0 then 0 else Observed(col, k - 1) + if col[k - 1].Some? then 1 else 0
  }

  function Negated(col: Column): Column {
    seq(|col|, i requires 0 <= i < |col| => if col[i].Some? then Some(-col[i].value) else None)
  }

  lemma {:induction false} BelowEqualAbove(col: Column, v: real, k: nat)
    requires k <= |col|
    ensures CountBelow(col, v, k) + CountEqual(col, v, k) + CountBelow(Negated(col), -v, k) == Observed(col, k)
    ensures CountEqual(Negated(col), -v, k) == CountEqual(col, v, k)
  {
    if k > 0 {
      BelowEqualAbove(col, v, k - 1);
    }
  }

  /** Ranking the other way round turns every rank into its mirror image. */
  lemma {:induction false} RanksReversed(col: Column, i: nat)
    requires i < |col| && col[i].Some?
    ensures RankAt(col, i).value + RankAt(Negated(col), i).value == Observed(col, |col|) as real + 1.0
  {
    BelowEqualAbove(col, col[i].value, |col|);
  }

  /** Twice the rank that a value has, or would have, among the first `n` rows. */
  function TwiceRank(col: Column, v: real, n: nat): int
    requires n <= |col|
  {
    2 * CountBelow(col, v, n) + CountEqual(col, v, n) + 1
  }

  /** Twice the sum of the ranks that the first `k` rows have among the first `n`. */
  function TwiceRankSum(col: Column, n: nat, k: nat): int
    requires k <= |col| && n <= |col|
  {
    if k == 0 then 0
    else TwiceRankSum(col, n, k - 1) + if col[k - 1].Some? then TwiceRank(col, col[k - 1].value, n) else 0
  }

  /** One more row lifts the rows above it by a whole rank and those that tie with it by half a rank. */
  lemma {:induction false} RowLifts(col: Column, n: nat, k: nat)
    requires n < |col| && k <= |col| && col[n].Some?
    ensures TwiceRankSum(col, n + 1, k) - TwiceRankSum(col, n, k)
      == 2 * CountBelow(Negated(col), -col[n].value, k) + CountEqual(col, col[n].value, k)
  {
    if k > 0 {
      RowLifts(col, n, k - 1);
    }
  }

  lemma {:induction false} MissingRowLifts(col: Column, n: nat, k: nat)
    requires n < |col| && k <= |col| && col[n].None?
    ensures TwiceRankSum(col, n + 1, k) == TwiceRankSum(col, n, k)
  {
    if k > 0 {
      MissingRowLifts(col, n, k - 1);
    }
  }

  function Triangle(n: nat): nat {
    n * (n + 1)
  }

  lemma {:induction false} TriangleStep(n: nat)
    ensures Triangle(n + 1) == Triangle(n) + 2 * (n + 1)
  {
  }

  lemma {:induction false} TwiceRanksAddUp(col: Column, n: nat)
    requires n <= |col|
    ensures TwiceRankSum(col, n, n) == Triangle(Observed(col, n))
  {
    if n > 0 {
      hide Triangle;
      TwiceRanksAddUp(col, n - 1);
      if col[n - 1].Some? {
        RowLifts(col, n - 1, n - 1);
        BelowEqualAbove(col, col[n - 1].value, n - 1);
        TriangleStep(Observed(col, n - 1));
      } else {
        MissingRowLifts(col, n - 1, n - 1);
      }
    }
  }

  function RankSum(col: Column, k: nat): real
    requires k <= |col|
  {
    if k == 0 then 0.0 else RankSum(col, k - 1) + if col[k - 1].Some? then RankAt(col, k - 1).value else 0.0
  }

  lemma {:induction false} HalfOfTwice(col: Column, k: nat)
    requires k <= |col|
    ensures 2.0 * RankSum(col, k) == TwiceRankSum(col, |col|, k) as real
  {
    if k > 0 {
      HalfOfTwice(col, k - 1);
    }
  }

  /** The ranks of `n` observed rows add up to 1 + 2 + ... + n, ties or not. */
  lemma {:induction false} RanksAddUp(col: Column)
    ensures 2.0 * RankSum(col, |col|) == (Observed(col, |col|) * (Observed(col, |col|) + 1)) as real
  {
    HalfOfTwice(col, |col|);
    TwiceRanksAddUp(col, |col|);
  }

  ghost predicate OrderIsomorphic(x: Column, y: Column) {
    && |x| == |y|
    && (forall i :: 0 <= i < |x| ==> (x[i].Some? <==> y[i].Some?))
    && forall i, j :: 0 <= i < |x| && 0 <= j < |x| && x[i].Some? && x[j].Some? ==>
      (x[i].value < x[j].value <==> y[i].value < y[j].value)
  }

  lemma {:induction false} CountsAgree(x: Column, y: Column, i: nat, k: nat)
    requires OrderIsomorphic(x, y) && i < |x| && x[i].Some? && k <= |x|
    ensures CountBelow(x, x[i].value, k) == CountBelow(y, y[i].value, k)
    ensures CountEqual(x, x[i].value, k) == CountEqual(y, y[i].value, k)
  {
    if k > 0 {
      CountsAgree(x, y, i, k - 1);
      var j := k - 1;
      if x[j].Some? {
        assert x[j].value < x[i].value <==> y[j].value < y[i].value;
        assert x[i].value < x[j].value <==> y[i].value < y[j].value;
      }
    }
  }

  /** Ranks, and hence every coefficient, see only the order of the values: strictly increasing rescalings vanish. */
  lemma {:induction false} RanksSeeOnlyOrder(x: Column, y: Column)
    requires OrderIsomorphic(x, y)
    ensures Ranks(x) == Ranks(y)
  {
    forall i | 0 <= i < |x|
      ensures Ranks(x)[i] == Ranks(y)[i]
    {
      if x[i].Some? {
        CountsAgree(x, y, i, |x|);
      }
    }
  }

  // ----- the masked matrix products -----

  function Mask(x: Option<real>): real {
    if x.Some? then 1.0 else 0.0
  }

  function Zeroed(x: Option<real>): real {
    if x.Some? then x.value else 0.0
  }

  function Masks(col: Column): seq<real> {
    seq(|col|, i requires 0 <= i < |col| => Mask(col[i]))
  }

  function Zeroes(col: Column): seq<real> {
    seq(|col|, i requires 0 <= i < |col| => Zeroed(col[i]))
  }

  function Squares(xs: seq<real>): seq<real> {
    seq(|xs|, i requires 0 <= i < |xs| => Times(xs[i], xs[i]))
  }

  function Times(a: real, b: real): real {
    a * b
  }

  /** One entry of a matrix product. */
  function Dot(u: seq<real>, v: seq<real>): real
    requires |u| == |v|
    decreases |u|
  {
    if u == [] then 0.0 else Times(u[0], v[0]) + Dot(u[1..], v[1..])
  }

  function Count(x: Column, y: Column): real
    requires |x| == |y|
  {
    Dot(Masks(x), Masks(y))
  }

  function SafeCount(x: Column, y: Column): real
    requires |x| == |y|
  {
    MaxReal(Count(x, y), 1.0)
  }

  function SumOf(x: Column, y: Column): real
    requires |x| == |y|
  {
    Dot(Zeroes(x), Masks(y))
  }

  function SquareSumOf(x: Column, y: Column): real
    requires |x| == |y|
  {
    Dot(Squares(Zeroes(x)), Masks(y))
  }

  function Cross(x: Column, y: Column): real
    requires |x| == |y|
  {
    Dot(Zeroes(x), Zeroes(y))
  }

  function Centred(products: real, s: real, t: real, n: real): real
    requires n != 0.0
  {
    products - Times(s, t) / n
  }

  function Covariance(x: Column, y: Column): real
    requires |x| == |y|
  {
    Centred(Cross(x, y), SumOf(x, y), SumOf(y, x), SafeCount(x, y))
  }

  function LeftVariance(x: Column, y: Column): real
    requires |x| == |y|
  {
    Centred(SquareSumOf(x, y), SumOf(x, y), SumOf(x, y), SafeCount(x, y))
  }

  function RightVariance(x: Column, y: Column): real
    requires |x| == |y|
  {
    Centred(SquareSumOf(y, x), SumOf(y, x), SumOf(y, x), SafeCount(x, y))
  }

  // ----- the direct definition over common rows -----

  datatype Pair = Pair(left: real, right: real)

  function Common(x: Column, y: Column): seq<Pair>
    requires |x| == |y|
    decreases |x|
  {
    if x == [] then []
    else (if x[0].Some? && y[0].Some? then [Pair(x[0].value, y[0].value)] else []) + Common(x[1..], y[1..])
  }

  function Lefts(pairs: seq<Pair>): seq<real> {
    seq(|pairs|, i requires 0 <= i < |pairs| => pairs[i].left)
  }

  function Rights(pairs: seq<Pair>): seq<real> {
    seq(|pairs|, i requires 0 <= i < |pairs| => pairs[i].right)
  }

  function Sum(xs: seq<real>): real {
    if xs == [] then 0.0 else xs[0] + Sum(xs[1..])
  }

  function Mean(xs: seq<real>): real
    requires xs != []
  {
    Sum(xs) / |xs| as real
  }

  function Shifted(xs: seq<real>, a: real): seq<real> {
    seq(|xs|, i requires 0 <= i < |xs| => xs[i] - a)
  }

  /** Deviations from the mean. */
  function Deviations(xs: seq<real>): seq<real>
    requires xs != []
  {
    Shifted(xs, Mean(xs))
  }

  /** Sum of products of deviations from the means: covariance and variances up to the common factor 1/n. */
  function Comoment(xs: seq<real>, ys: seq<real>): real
    requires |xs| == |ys|
  {
    if xs == [] then 0.0 else Dot(Deviations(xs), Deviations(ys))
  }

  // ----- the masked products are sums over the common rows -----

  lemma {:induction false} SquaresTail(xs: seq<real>)
    requires xs != []
    ensures Squares(xs)[1..] == Squares(xs[1..])
  {
  }

  /** How the list of common rows grows by the first row. */
  lemma {:induction false} CommonStep(x: Column, y: Column)
    requires |x| == |y| && x != []
    ensures
      var p, rest := Common(x, y), Common(x[1..], y[1..]);
      if x[0].Some? && y[0].Some? then
        && p != [] && p[1..] == rest && p[0] == Pair(x[0].value, y[0].value)
        && Lefts(p)[1..] == Lefts(rest) && Rights(p)[1..] == Rights(rest)
      else p == rest
  {
    var p, rest := Common(x, y), Common(x[1..], y[1..]);
    if x[0].Some? && y[0].Some? {
      assert p == [Pair(x[0].value, y[0].value)] + rest;
    }
  }

  lemma {:induction false} MaskTimes(v: real, y: Option<real>)
    ensures Times(v, Mask(y)) == if y.Some? then v else 0.0
  {
  }

  lemma {:induction false} ZeroedTimes(x: Option<real>, y: Option<real>)
    ensures Times(Zeroed(x), Zeroed(y)) == if x.Some? && y.Some? then Times(x.value, y.value) else 0.0
  {
  }

  lemma {:induction false} ColumnTails(x: Column)
    requires x != []
    ensures Masks(x)[1..] == Masks(x[1..]) && Zeroes(x)[1..] == Zeroes(x[1..])
    ensures Squares(Zeroes(x))[1..] == Squares(Zeroes(x[1..]))
  {
    assert Zeroes(x)[1..] == Zeroes(x[1..]);
    SquaresTail(Zeroes(x));
  }

  lemma {:induction false} MaskedCount(x: Column, y: Column)
    requires |x| == |y|
    ensures Count(x, y) == |Common(x, y)| as real
    decreases |x|
  {
    if x != [] {
      MaskedCount(x[1..], y[1..]);
      CommonStep(x, y);
      ColumnTails(x);
      ColumnTails(y);
    }
  }

  /** The entries of `us` in the rows that both columns observe. */
  function Picked(us: seq<real>, x: Column, y: Column): seq<real>
    requires |us| == |x| == |y|
    decreases |us|
  {
    if us == [] then []
    else (if x[0].Some? && y[0].Some? then [us[0]] else []) + Picked(us[1..], x[1..], y[1..])
  }

  /** A product with the other mask sums exactly the common rows, provided missing rows were zeroed. */
  lemma {:induction false} MaskedPick(us: seq<real>, x: Column, y: Column)
    requires |us| == |x| == |y| && forall i :: 0 <= i < |x| && x[i].None? ==> us[i] == 0.0
    ensures Dot(us, Masks(y)) == Sum(Picked(us, x, y))
    decreases |us|
  {
    hide Times;
    if us != [] {
      MaskedPick(us[1..], x[1..], y[1..]);
      ColumnTails(y);
      MaskTimes(us[0], y[0]);
      var rest := Picked(us[1..], x[1..], y[1..]);
      if x[0].Some? && y[0].Some? {
        assert Picked(us, x, y) == [us[0]] + rest;
        assert ([us[0]] + rest)[1..] == rest;
      } else {
        assert Picked(us, x, y) == rest;
      }
    }
  }

  lemma {:induction false} PickedZeroes(x: Column, y: Column)
    requires |x| == |y|
    ensures Picked(Zeroes(x), x, y) == Lefts(Common(x, y))
    decreases |x|
  {
    if x != [] {
      PickedZeroes(x[1..], y[1..]);
      CommonStep(x, y);
      ColumnTails(x);
      var p := Common(x, y);
      if x[0].Some? && y[0].Some? {
        assert Lefts(p) == [x[0].value] + Lefts(p)[1..];
      }
    }
  }

  lemma {:induction false} PickedSquares(us: seq<real>, x: Column, y: Column)
    requires |us| == |x| == |y|
    ensures Picked(Squares(us), x, y) == Squares(Picked(us, x, y))
    decreases |us|
  {
    hide Times;
    if us != [] {
      PickedSquares(us[1..], x[1..], y[1..]);
      SquaresTail(us);
      var rest := Picked(us[1..], x[1..], y[1..]);
      if x[0].Some? && y[0].Some? {
        assert Picked(us, x, y) == [us[0]] + rest;
        assert Squares([us[0]] + rest) == [Times(us[0], us[0])] + Squares(rest);
      }
    }
  }

  lemma {:induction false} SumOfSquares(xs: seq<real>)
    ensures Sum(Squares(xs)) == Dot(xs, xs)
    decreases |xs|
  {
    hide Times;
    if xs != [] {
      SumOfSquares(xs[1..]);
      SquaresTail(xs);
    }
  }

  lemma {:induction false} MaskedSum(x: Column, y: Column)
    requires |x| == |y|
    ensures SumOf(x, y) == Sum(Lefts(Common(x, y)))
  {
    MaskedPick(Zeroes(x), x, y);
    PickedZeroes(x, y);
  }

  lemma {:induction false} MaskedSquareSum(x: Column, y: Column)
    requires |x| == |y|
    ensures SquareSumOf(x, y) == Dot(Lefts(Common(x, y)), Lefts(Common(x, y)))
  {
    var us := Squares(Zeroes(x));
    MaskedPick(us, x, y);
    PickedSquares(Zeroes(x), x, y);
    PickedZeroes(x, y);
    SumOfSquares(Lefts(Common(x, y)));
  }

  lemma {:induction false} MaskedCross(x: Column, y: Column)
    requires |x| == |y|
    ensures Cross(x, y) == Dot(Lefts(Common(x, y)), Rights(Common(x, y)))
    decreases |x|
  {
    hide Times;
    if x != [] {
      MaskedCross(x[1..], y[1..]);
      CommonStep(x, y);
      ColumnTails(x);
      ColumnTails(y);
      ZeroedTimes(x[0], y[0]);
    }
  }

  lemma {:induction false} CommonSwapped(x: Column, y: Column)
    requires |x| == |y|
    ensures |Common(y, x)| == |Common(x, y)|
    ensures forall i :: 0 <= i < |Common(x, y)| ==>
      Common(y, x)[i] == Pair(Common(x, y)[i].right, Common(x, y)[i].left)
    decreases |x|
  {
    if x != [] {
      CommonSwapped(x[1..], y[1..]);
    }
  }

  lemma {:induction false} SidesSwapped(x: Column, y: Column)
    requires |x| == |y|
    ensures Lefts(Common(y, x)) == Rights(Common(x, y)) && Rights(Common(y, x)) == Lefts(Common(x, y))
  {
    CommonSwapped(x, y);
  }

  lemma {:induction false} MaskedSums(x: Column, y: Column)
    requires |x| == |y|
    ensures
      var p := Common(x, y);
      && Count(x, y) == |p| as real
      && SumOf(x, y) == Sum(Lefts(p)) && SumOf(y, x) == Sum(Rights(p))
      && SquareSumOf(x, y) == Dot(Lefts(p), Lefts(p)) && SquareSumOf(y, x) == Dot(Rights(p), Rights(p))
      && Cross(x, y) == Dot(Lefts(p), Rights(p))
  {
    MaskedCount(x, y);
    MaskedSum(x, y);
    MaskedSum(y, x);
    MaskedSquareSum(x, y);
    MaskedSquareSum(y, x);
    MaskedCross(x, y);
    SidesSwapped(x, y);
  }

  lemma {:induction false} DotShifted(us: seq<real>, ys: seq<real>, b: real)
    requires |us| == |ys|
    ensures Dot(us, Shifted(ys, b)) == Dot(us, ys) - Times(b, Sum(us))
    decreases |us|
  {
    hide Times;
    if us == [] {
      TimesZero(b);
    } else {
      DotShifted(us[1..], ys[1..], b);
      assert Shifted(ys, b)[1..] == Shifted(ys[1..], b);
      assert Shifted(ys, b)[0] == ys[0] - b;
      ShiftStep(
        us[0], ys[0], b, Dot(us[1..], Shifted(ys[1..], b)), Dot(us[1..], ys[1..]), Sum(us[1..]),
        Dot(us, Shifted(ys, b)), Dot(us, ys), Sum(us));
    }
  }

  lemma {:induction false} TimesZero(b: real)
    ensures Times(b, 0.0) == 0.0 && Times(0.0, b) == 0.0
  {
  }

  /** One term of the shift, on plain numbers. */
  lemma {:induction false} ShiftStep(u: real, y: real, b: real, d: real, p: real, s: real, d': real, p': real, s': real)
    requires d == p - Times(b, s)
    requires d' == Times(u, y - b) + d && p' == Times(u, y) + p && s' == u + s
    ensures d' == p' - Times(b, s')
  {
    assert u * (y - b) == u * y - u * b;
  }

  lemma {:induction false} SumShifted(xs: seq<real>, a: real)
    ensures Sum(Shifted(xs, a)) == Sum(xs) - |xs| as real * a
    decreases |xs|
  {
    if xs != [] {
      SumShifted(xs[1..], a);
      assert Shifted(xs, a)[1..] == Shifted(xs[1..], a);
      var n := |xs[1..]| as real;
      assert |xs| as real == n + 1.0;
      assert (n + 1.0) * a == n * a + a;
    }
  }

  /** Deviations from the mean sum to nothing. */
  lemma {:induction false} DeviationsBalance(xs: seq<real>)
    requires xs != []
    ensures Sum(Deviations(xs)) == 0.0
  {
    SumShifted(xs, Mean(xs));
  }

  /** Against balanced terms a shift of the other side is invisible. */
  lemma {:induction false} BalancedShift(us: seq<real>, ys: seq<real>, b: real)
    requires |us| == |ys| && Sum(us) == 0.0
    ensures Dot(us, Shifted(ys, b)) == Dot(us, ys)
  {
    DotShifted(us, ys, b);
    TimesZero(b);
  }

  /** Centring both sides, once the left shift balances its side. */
  lemma {:induction false} BalancedComoment(xs: seq<real>, ys: seq<real>, a: real, b: real)
    requires |xs| == |ys| && Sum(Shifted(xs, a)) == 0.0
    ensures Dot(Shifted(xs, a), Shifted(ys, b)) == Dot(xs, ys) - Times(a, Sum(ys))
  {
    hide Times;
    BalancedShift(Shifted(xs, a), ys, b);
    DotSymmetric(Shifted(xs, a), ys);
    DotShifted(ys, xs, a);
    DotSymmetric(ys, xs);
  }

  lemma {:induction false} ComomentShortcut(xs: seq<real>, ys: seq<real>)
    requires |xs| == |ys| && xs != []
    ensures Comoment(xs, ys) == Centred(Dot(xs, ys), Sum(xs), Sum(ys), |xs| as real)
  {
    DeviationsBalance(xs);
    ShortcutWithMean(xs, ys, Mean(xs), Mean(ys));
  }

  lemma {:induction false} ShortcutWithMean(xs: seq<real>, ys: seq<real>, a: real, b: real)
    requires |xs| == |ys| && xs != [] && a == Sum(xs) / |xs| as real && Sum(Shifted(xs, a)) == 0.0
    ensures Dot(Shifted(xs, a), Shifted(ys, b)) == Centred(Dot(xs, ys), Sum(xs), Sum(ys), |xs| as real)
  {
    hide Times, Sum, Dot, Centred;
    BalancedComoment(xs, ys, a, b);
    CentredByMean(Dot(xs, ys), Sum(xs), Sum(ys), |xs| as real, a, Dot(Shifted(xs, a), Shifted(ys, b)));
  }

  lemma {:induction false} CentredByMean(products: real, s: real, t: real, n: real, a: real, centred: real)
    requires n > 0.0 && a == s / n && centred == products - Times(a, t)
    ensures centred == Centred(products, s, t, n)
  {
    assert (a * t) * n == s * t;
  }

  /** The masked formula is the direct one: covariance and both variances over exactly the common rows. */
  lemma {:induction false} MaskedFormulaIsDirect(x: Column, y: Column)
    requires |x| == |y|
    ensures
      var xs, ys := Lefts(Common(x, y)), Rights(Common(x, y));
      && Covariance(x, y) == Comoment(xs, ys)
      && LeftVariance(x, y) == Comoment(xs, xs)
      && RightVariance(x, y) == Comoment(ys, ys)
  {
    MaskedSums(x, y);
    var xs, ys := Lefts(Common(x, y)), Rights(Common(x, y));
    if xs == [] {
      assert ys == [];
    } else {
      ComomentShortcut(xs, ys);
      ComomentShortcut(xs, xs);
      ComomentShortcut(ys, ys);
    }
  }

  // ----- Cauchy-Schwarz -----

  lemma {:induction false} SquareNonnegative(a: real)
    ensures a * a >= 0.0
  {
  }

  lemma {:induction false} ProductPositive(a: real, b: real)
    requires a > 0.0 && b > 0.0
    ensures a * b > 0.0
  {
  }

  lemma {:induction false} SquareMonotone(a: real, b: real)
    requires b >= 0.0 && a * a <= b * b
    ensures a <= b
  {
    if a > b {
      ProductPositive(a - b, a + b);
      DifferenceOfSquares(a, b);
    }
  }

  lemma {:induction false} DifferenceOfSquares(a: real, b: real)
    ensures (a - b) * (a + b) == a * a - b * b
  {
  }

  /** The Cauchy-Schwarz relation between a covariance `c` and two variances. */
  predicate BoundedBy(c: real, a: real, b: real) {
    a >= 0.0 && b >= 0.0 && Times(c, c) <= Times(a, b)
  }

  /** The mixed terms of the step: (2cuv)^2 <= 4ab(uv)^2 = 4(avv)(buu) <= (avv + buu)^2. */
  lemma {:induction false} MixedTerms(c: real, a: real, b: real, u: real, v: real)
    requires BoundedBy(c, a, b)
    ensures 2.0 * (c * (u * v)) <= a * (v * v) + b * (u * u)
  {
    var w, s, t := u * v, a * (v * v), b * (u * u);
    SquareNonnegative(u);
    SquareNonnegative(v);
    SquareNonnegative(w);
    SquareNonnegative(s - t);
    Regroup(a, v * v, b, u * u);
    SquareOfProduct(v, u);
    assert s * t == (a * b) * (w * w);
    ScaleInequality(c * c, a * b, w * w);
    Regroup(2.0, c * w, 2.0, c * w);
    SquareOfProduct(c, w);
    BinomialGap(s, t);
    SquareMonotone(2.0 * (c * w), s + t);
  }

  lemma {:induction false} Regroup(a: real, p: real, b: real, q: real)
    ensures (a * p) * (b * q) == (a * b) * (p * q)
  {
  }

  lemma {:induction false} ScaleInequality(p: real, q: real, k: real)
    requires p <= q && k >= 0.0
    ensures p * k <= q * k
  {
  }

  lemma {:induction false} BinomialGap(s: real, t: real)
    ensures (s + t) * (s + t) == (s - t) * (s - t) + 4.0 * (s * t)
  {
  }

  lemma {:induction false} SquareOfProduct(u: real, v: real)
    ensures (u * v) * (u * v) == (u * u) * (v * v)
  {
  }

  /** Adding one product to both sides keeps the inequality. */
  lemma {:induction false} CauchySchwarzStep(c: real, a: real, b: real, u: real, v: real)
    requires BoundedBy(c, a, b)
    ensures BoundedBy(Times(u, v) + c, Times(u, u) + a, Times(v, v) + b)
  {
    MixedTerms(c, a, b, u, v);
    SquareNonnegative(u);
    SquareNonnegative(v);
    SquareOfProduct(u, v);
    assert (u * v + c) * (u * v + c) == (u * v) * (u * v) + 2.0 * (c * (u * v)) + c * c;
    assert (u * u + a) * (v * v + b) == (u * u) * (v * v) + (a * (v * v) + b * (u * u)) + a * b;
  }

  lemma {:induction false} CauchySchwarz(us: seq<real>, vs: seq<real>)
    requires |us| == |vs|
    ensures BoundedBy(Dot(us, vs), Dot(us, us), Dot(vs, vs))
    decreases |us|
  {
    hide Times;
    if us != [] {
      CauchySchwarz(us[1..], vs[1..]);
      CauchySchwarzStep(Dot(us[1..], vs[1..]), Dot(us[1..], us[1..]), Dot(vs[1..], vs[1..]), us[0], vs[0]);
    }
  }

  lemma {:induction false} CovarianceBound(x: Column, y: Column)
    requires |x| == |y|
    ensures BoundedBy(Covariance(x, y), LeftVariance(x, y), RightVariance(x, y))
  {
    MaskedFormulaIsDirect(x, y);
    var xs, ys := Lefts(Common(x, y)), Rights(Common(x, y));
    if xs != [] {
      CauchySchwarz(Deviations(xs), Deviations(ys));
    } else {
      assert ys == [];
    }
  }

  // ----- symmetry -----

  lemma {:induction false} DotSymmetric(u: seq<real>, v: seq<real>)
    requires |u| == |v|
    ensures Dot(u, v) == Dot(v, u)
    decreases |u|
  {
    hide Times;
    if u != [] {
      DotSymmetric(u[1..], v[1..]);
      Commute(u[0], v[0]);
    }
  }

  lemma {:induction false} TransposedTerms(x: Column, y: Column)
    requires |x| == |y|
    ensures Count(x, y) == Count(y, x)
    ensures Covariance(x, y) == Covariance(y, x)
    ensures LeftVariance(x, y) == RightVariance(y, x) && RightVariance(x, y) == LeftVariance(y, x)
  {
    DotSymmetric(Masks(x), Masks(y));
    DotSymmetric(Zeroes(x), Zeroes(y));
  }

  // ----- the coefficient -----

  ghost predicate IsSquareRoot(root: real -> real) {
    forall v: real :: v >= 0.0 ==> root(v) >= 0.0 && root(v) * root(v) == v
  }

  function Denominator(x: Column, y: Column, root: real -> real): real
    requires |x| == |y|
  {
    root(VarianceProduct(x, y))
  }

  function VarianceProduct(x: Column, y: Column): real
    requires |x| == |y|
  {
    Times(MaxReal(LeftVariance(x, y), 0.0), MaxReal(RightVariance(x, y), 0.0))
  }

  /** Entry (x, y) before symmetrization; `None` where the division is masked out. */
  function RawCorrelation(x: Column, y: Column, minPeriods: nat, root: real -> real): Option<real>
    requires |x| == |y|
  {
    if Count(x, y) >= minPeriods as real && Denominator(x, y, root) > 0.0
    then Some(Covariance(x, y) / Denominator(x, y, root))
    else None
  }

  /** The entry the script returns: averaged with its transpose, then clipped. */
  function Correlation(x: Column, y: Column, minPeriods: nat, root: real -> real): Option<real>
    requires |x| == |y|
  {
    var a, b := RawCorrelation(x, y, minPeriods, root), RawCorrelation(y, x, minPeriods, root);
    if a.Some? && b.Some? then Some(Clip((a.value + b.value) / 2.0, -1.0, 1.0)) else None
  }

  lemma {:induction false} QuotientBound(c: real, d: real)
    requires d > 0.0 && c * c <= d * d
    ensures -1.0 <= c / d <= 1.0
  {
    SquareMonotone(c, d);
    assert (-c) * (-c) == c * c;
    SquareMonotone(-c, d);
    DivideMonotone(c, d, d);
    DivideMonotone(-d, c, d);
    assert -d / d == -1.0;
  }

  lemma {:induction false} DivideMonotone(a: real, b: real, d: real)
    requires d > 0.0 && a <= b
    ensures a / d <= b / d
  {
  }

  /** Averaging and clipping change nothing: every coefficient is the direct Pearson quotient and lies in [-1, 1]. */
  lemma {:induction false} CorrelationIsPearson(x: Column, y: Column, minPeriods: nat, root: real -> real)
    requires |x| == |y| && IsSquareRoot(root)
    ensures
      var xs, ys := Lefts(Common(x, y)), Rights(Common(x, y));
      var r := Correlation(x, y, minPeriods, root);
      && (r.Some? <==> |Common(x, y)| >= minPeriods && Comoment(xs, xs) > 0.0 && Comoment(ys, ys) > 0.0)
      && var d := root(Times(Comoment(xs, xs), Comoment(ys, ys)));
      && (r.Some? ==> d > 0.0 && r.value == Comoment(xs, ys) / d && -1.0 <= r.value <= 1.0)
    ensures Correlation(x, y, minPeriods, root) == Correlation(y, x, minPeriods, root)
  {
    MaskedCount(x, y);
    MaskedFormulaIsDirect(x, y);
    CovarianceBound(x, y);
    TransposedTerms(x, y);
    var l, r := LeftVariance(x, y), RightVariance(x, y);
    CoefficientOf(Covariance(x, y), l, r, root);
    Commute(l, r);
    assert MaxReal(l, 0.0) == l && MaxReal(r, 0.0) == r;
    assert VarianceProduct(x, y) == VarianceProduct(y, x) == Times(l, r);
  }

  /** One division: positive denominator exactly for two positive variances, and a quotient that needs no clipping. */
  lemma {:induction false} CoefficientOf(c: real, l: real, r: real, root: real -> real)
    requires IsSquareRoot(root) && BoundedBy(c, l, r)
    ensures
      var d := root(Times(l, r));
      && d >= 0.0
      && (d > 0.0 <==> l > 0.0 && r > 0.0)
      && (d > 0.0 ==> -1.0 <= c / d <= 1.0 && Clip((c / d + c / d) / 2.0, -1.0, 1.0) == c / d)
  {
    var p := Times(l, r);
    var d := root(p);
    RootOfProduct(root, l, r, p, d);
    if d > 0.0 {
      QuotientBound(c, d);
    }
  }

  lemma {:induction false} Commute(a: real, b: real)
    ensures Times(a, b) == Times(b, a)
  {
  }

  lemma {:induction false} RootOfProduct(root: real -> real, l: real, r: real, p: real, d: real)
    requires IsSquareRoot(root) && l >= 0.0 && r >= 0.0 && p == l * r && d == root(p)
    ensures d >= 0.0 && d * d == p
    ensures d > 0.0 <==> l > 0.0 && r > 0.0
  {
    ProductSign(l, r);
    PositiveSquare(d, p);
  }

  lemma {:induction false} ProductSign(a: real, b: real)
    requires a >= 0.0 && b >= 0.0
    ensures a * b >= 0.0
    ensures a * b > 0.0 <==> a > 0.0 && b > 0.0
  {
  }

  lemma {:induction false} PositiveSquare(d: real, p: real)
    requires d >= 0.0 && d * d == p
    ensures d > 0.0 <==> p > 0.0
  {
    if p <= 0.0 {
      SquareMonotone(d, 0.0);
    }
    if d == 0.0 {
      assert d * d == 0.0 * d;
    }
  }

  /** A factor with enough varying observations correlates perfectly with itself. */
  lemma {:induction false} SelfCorrelation(x: Column, minPeriods: nat, root: real -> real)
    requires IsSquareRoot(root)
    ensures Correlation(x, x, minPeriods, root) in {None, Some(1.0)}
  {
    CorrelationIsPearson(x, x, minPeriods, root);
    CommonWithSelf(x);
    var xs := Lefts(Common(x, x));
    assert Rights(Common(x, x)) == xs;
    if Correlation(x, x, minPeriods, root).Some? {
      PerfectQuotient(Comoment(xs, xs), root);
    }
  }

  lemma {:induction false} PerfectQuotient(v: real, root: real -> real)
    requires IsSquareRoot(root) && v > 0.0
    ensures root(Times(v, v)) > 0.0 && v / root(Times(v, v)) == 1.0
  {
    var d := root(Times(v, v));
    RootOfProduct(root, v, v, Times(v, v), d);
    SquareMonotone(d, v);
    SquareMonotone(v, d);
  }

  lemma {:induction false} CommonWithSelf(x: Column)
    ensures forall p :: p in Common(x, x) ==> p.left == p.right
    decreases |x|
  {
    if x != [] {
      CommonWithSelf(x[1..]);
    }
  }
}
