/** Step-up Benjamini-Hochberg and step-down Holm adjustment, as the platform computes them: sort, scale by rank,
    accumulate, clip, and scatter back.
 */
module Multiplicity {
  import opened Values
  import opened RankedFamilies

  datatype AdjustError = InvalidPValues

  /** A p-value is inserted for every hypothesis that could not be evaluated. */
  function Ones(k: nat): PValues {
    seq(k, _ => 1.0)
  }

  function Padded(a: PValues, k: nat, b: PValues): PValues {
    a + Ones(k) + b
  }

  lemma {:induction false} OnesCount(k: nat, t: real, strict: bool)
    ensures Count(Ones(k), t, strict) == if Counted(1.0, t, strict) then k else 0
    decreases k
  {
    if k > 0 {
      assert Ones(k)[..k - 1] == Ones(k - 1);
      OnesCount(k - 1, t, strict);
    }
  }

  lemma {:induction false} PaddedCount(a: PValues, k: nat, b: PValues, t: real, strict: bool)
    ensures Count(Padded(a, k, b), t, strict) == Count(a + b, t, strict) + if Counted(1.0, t, strict) then k else 0
  {
    hide Count, Counted;
    OnesCount(k, t, strict);
    CountConcat(a, Ones(k), t, strict);
    CountConcat(a + Ones(k), b, t, strict);
    CountConcat(a, b, t, strict);
  }

  // ----- exact arithmetic -----

  /** The value times the size of the family, over a rank. */
  function Ratio(t: real, m: nat, c: nat): real
    requires c > 0
  {
    t * m as real / c as real
  }

  function Times(t: real, k: nat): real {
    t * k as real
  }

  lemma {:induction false} RatioAtMost(t: real, m: nat, c: nat, a: real)
    requires c > 0
    ensures Ratio(t, m, c) <= a <==> Times(t, m) <= Times(a, c)
  {
    assert Ratio(t, m, c) * c as real == t * m as real;
  }

  lemma {:induction false} TimesMonotone(t: real, c: nat, d: nat)
    requires t >= 0.0 && c <= d
    ensures Times(t, c) <= Times(t, d)
  {
  }

  lemma {:induction false} RatioNonNegative(t: real, m: nat, c: nat)
    requires t >= 0.0 && c > 0
    ensures Ratio(t, m, c) >= 0.0
  {
    assert t * m as real >= 0.0;
  }

  lemma {:induction false} RatioAntitone(t: real, m: nat, c: nat, d: nat)
    requires t >= 0.0 && 0 < d <= c
    ensures Ratio(t, m, c) <= Ratio(t, m, d)
  {
    var y := Ratio(t, m, d);
    RatioNonNegative(t, m, d);
    RatioAtMost(t, m, d, y);
    TimesMonotone(y, d, c);
    RatioAtMost(t, m, c, y);
  }

  lemma {:induction false} RatioMonotone(t: real, m: nat, n: nat, c: nat)
    requires t >= 0.0 && m <= n && c > 0
    ensures Ratio(t, m, c) <= Ratio(t, n, c)
  {
    var y := Ratio(t, n, c);
    RatioAtMost(t, n, c, y);
    TimesMonotone(t, m, n);
    RatioAtMost(t, m, c, y);
  }

  lemma {:induction false} RatioSame(t: real, n: nat)
    requires n > 0
    ensures Ratio(t, n, n) == t
  {
  }

  // ----- Benjamini-Hochberg -----

  /** The value `t` times the size of the family over the number of values at most `t`. */
  function Scaled(p: PValues, t: real): real
    requires AtMost(p, t) > 0
  {
    Ratio(t, |p|, AtMost(p, t))
  }

  /** `q` is the least scaled value among all members of the family from `t` upwards. */
  ghost predicate StepUp(p: PValues, t: real, q: real) {
    && (forall j :: 0 <= j < |p| && p[j] >= t ==> AtMost(p, p[j]) > 0 && q <= Scaled(p, p[j]))
    && exists j :: 0 <= j < |p| && p[j] >= t && AtMost(p, p[j]) > 0 && q == Scaled(p, p[j])
  }

  function ScaledByRank(ranked: PValues): seq<real> {
    seq(|ranked|, r requires 0 <= r < |ranked| => Ratio(ranked[r], |ranked|, r + 1))
  }

  lemma {:induction false} RankAboveScaled(p: PValues, order: seq<nat>, s: nat)
    requires SortsBy(order, p) && Valid(p) && s < |p|
    ensures AtMost(p, p[order[s]]) > 0 && Scaled(p, p[order[s]]) <= ScaledByRank(Ranked(p, order))[s]
  {
    hide Ratio, Count;
    var t := p[order[s]];
    CountedPositions(p, order, t, false, s);
    RatioAntitone(t, |p|, AtMost(p, t), s + 1);
  }

  lemma {:induction false} ScaledIsRanked(p: PValues, order: seq<nat>, r: nat, j: nat)
    requires SortsBy(order, p) && r < |p| && j < |p| && p[j] >= Ranked(p, order)[r]
    ensures 0 < AtMost(p, p[j]) <= |p| && r <= AtMost(p, p[j]) - 1
    ensures Scaled(p, p[j]) == ScaledByRank(Ranked(p, order))[AtMost(p, p[j]) - 1]
  {
    hide Ratio, Count;
    LastTie(p, order, j);
    CountedPositions(p, order, p[j], false, r);
  }

  /** The running minimum from the largest value down is the step-up value, wherever ties were put. */
  lemma {:induction false} SuffixMinimumIsStepUp(p: PValues, order: seq<nat>, r: nat, v: real)
    requires SortsBy(order, p) && Valid(p) && r < |p| && SuffixMinimum(ScaledByRank(Ranked(p, order)), r, v)
    ensures StepUp(p, Ranked(p, order)[r], v)
  {
    var ranked := Ranked(p, order);
    var scaled := ScaledByRank(ranked);
    forall j | 0 <= j < |p| && p[j] >= ranked[r]
      ensures AtMost(p, p[j]) > 0 && v <= Scaled(p, p[j])
    {
      ScaledIsRanked(p, order, r, j);
    }
    var s :| r <= s < |scaled| && v == scaled[s];
    hide ScaledByRank, Scaled, Count;
    RankAboveScaled(p, order, s);
    assert p[order[s]] == ranked[s] >= ranked[r];
  }

  lemma {:induction false} LargestIndex(p: PValues) returns (top: nat)
    requires p != []
    ensures top < |p| && forall i :: 0 <= i < |p| ==> p[i] <= p[top]
    decreases |p|
  {
    top := |p| - 1;
    if |p| > 1 {
      var front := LargestIndex(p[..|p| - 1]);
      if p[front] > p[top] {
        top := front;
      }
    }
  }

  /** Every step-up value lies between its own p-value and one. */
  lemma {:induction false} StepUpBounds(p: PValues, t: real, q: real)
    requires Valid(p) && StepUp(p, t, q)
    ensures t <= q <= 1.0
  {
    hide Ratio, Count;
    var j :| 0 <= j < |p| && p[j] >= t && AtMost(p, p[j]) > 0 && q == Scaled(p, p[j]);
    CountBound(p, p[j], false);
    RatioSame(p[j], |p|);
    RatioAntitone(p[j], |p|, |p|, AtMost(p, p[j]));
    var top := LargestIndex(p);
    CountAll(p, p[top]);
    RatioSame(p[top], |p|);
  }

  /** Larger p-values never get smaller q-values, and each p-value has only one. */
  lemma {:induction false} StepUpMonotone(p: PValues, s: real, t: real, q: real, r: real)
    requires s <= t && StepUp(p, s, q) && StepUp(p, t, r)
    ensures q <= r && (s == t ==> q == r)
  {
    hide Scaled, Count;
    var j :| 0 <= j < |p| && p[j] >= t && AtMost(p, p[j]) > 0 && r == Scaled(p, p[j]);
    var i :| 0 <= i < |p| && p[i] >= s && AtMost(p, p[i]) > 0 && q == Scaled(p, p[i]);
  }

  /** The 1995 procedure at level `alpha` rejects everything up to the largest rank whose value is at most alpha times
      rank over size.  A q-value is at most `alpha` exactly for the hypotheses that procedure rejects. */
  lemma {:induction false} StepUpDecides(p: PValues, order: seq<nat>, t: real, q: real, alpha: real)
    requires SortsBy(order, p) && Valid(p) && StepUp(p, t, q)
    ensures q <= alpha <==>
      exists r: nat :: r < |p| && Ranked(p, order)[r] >= t && Times(Ranked(p, order)[r], |p|) <= Times(alpha, r + 1)
  {
    hide Ratio, Times, Count;
    var ranked := Ranked(p, order);
    if q <= alpha {
      var j :| 0 <= j < |p| && p[j] >= t && AtMost(p, p[j]) > 0 && q == Scaled(p, p[j]);
      LastTie(p, order, j);
      var r := AtMost(p, p[j]) - 1;
      RatioAtMost(ranked[r], |p|, r + 1, alpha);
    }
    if r: nat :| r < |p| && ranked[r] >= t && Times(ranked[r], |p|) <= Times(alpha, r + 1) {
      RankAboveScaled(p, order, r);
      RatioAtMost(ranked[r], |p|, r + 1, alpha);
      assert p[order[r]] == ranked[r];
    }
  }

  /** Keeping failed hypotheses as ones never lowers the q-value of a hypothesis that was evaluated. */
  lemma {:induction false} StepUpPadding(a: PValues, k: nat, b: PValues, t: real, q: real, r: real)
    requires Valid(a + b) && StepUp(a + b, t, q) && StepUp(Padded(a, k, b), t, r) && t <= 1.0
    ensures q <= r
  {
    var p, g := a + b, Padded(a, k, b);
    var j :| 0 <= j < |g| && g[j] >= t && AtMost(g, g[j]) > 0 && r == Scaled(g, g[j]);
    var v := g[j];
    PaddedCount(a, k, b, v, false);
    StepUpBounds(p, t, q);
    PaddedFrom(a, k, b, j);
    hide Ratio, Count, Padded;
    if v < 1.0 {
      var i :| 0 <= i < |p| && p[i] == v;
      assert q <= Scaled(p, p[i]);
      ScaledLonger(p, g, v);
    } else {
      CountAll(g, v);
      ScaledFull(g, v);
    }
  }

  /** Padding only adds ones. */
  lemma {:induction false} PaddedFrom(a: PValues, k: nat, b: PValues, j: nat)
    requires Valid(a + b) && j < |Padded(a, k, b)|
    ensures Valid(Padded(a, k, b)) && |Padded(a, k, b)| == |a + b| + k
    ensures Padded(a, k, b)[j] < 1.0 ==> exists i :: 0 <= i < |a + b| && (a + b)[i] == Padded(a, k, b)[j]
  {
    var p, g := a + b, Padded(a, k, b);
    forall i | 0 <= i < |g|
      ensures 0.0 <= g[i] <= 1.0
    {
      if i < |a| {
        assert g[i] == p[i];
      } else if i >= |a| + k {
        assert g[i] == p[i - k];
      }
    }
    if g[j] < 1.0 {
      var i := if j < |a| then j else j - k;
      assert p[i] == g[j];
    }
  }

  lemma {:induction false} ScaledLonger(p: PValues, g: PValues, v: real)
    requires v >= 0.0 && AtMost(g, v) == AtMost(p, v) > 0 && |p| <= |g|
    ensures Scaled(p, v) <= Scaled(g, v)
  {
    hide Ratio, Count;
    RatioMonotone(v, |p|, |g|, AtMost(p, v));
  }

  lemma {:induction false} ScaledFull(g: PValues, v: real)
    requires AtMost(g, v) == |g| > 0
    ensures Scaled(g, v) == v
  {
    hide Count;
    RatioSame(v, |g|);
  }

  /** No threshold is met by more members of `g` than of `p`. */
  ghost predicate Dominated(p: PValues, g: PValues) {
    |p| == |g| && forall t :: AtMost(g, t) <= AtMost(p, t)
  }

  /** The largest member up to `v` is reached by as many members as `v` is. */
  lemma {:induction false} LargestUpTo(p: PValues, v: real, i: nat) returns (u: nat)
    requires i < |p| && p[i] <= v
    ensures u < |p| && p[i] <= p[u] <= v && AtMost(p, p[u]) == AtMost(p, v)
    ensures forall j :: 0 <= j < |p| && p[j] <= v ==> p[j] <= p[u]
  {
    u := i;
    for k := 0 to |p|
      invariant u < |p| && p[i] <= p[u] <= v
      invariant forall j :: 0 <= j < k && p[j] <= v ==> p[j] <= p[u]
    {
      if p[u] < p[k] <= v {
        u := k;
      }
    }
    SameCount(p, p[u], v);
  }

  lemma {:induction false} SameCount(p: PValues, u: real, v: real)
    requires forall j :: 0 <= j < |p| ==> (p[j] <= u <==> p[j] <= v)
    ensures AtMost(p, u) == AtMost(p, v)
    decreases |p|
  {
    if p != [] {
      SameCount(p[..|p| - 1], u, v);
    }
  }

  lemma {:induction false} RatioRaised(u: real, v: real, n: nat, c: nat)
    requires u <= v && c > 0
    ensures Ratio(u, n, c) <= Ratio(v, n, c)
  {
    assert u * n as real <= v * n as real;
  }

  /** Raising p-values, in any order, never lowers a q-value. */
  lemma {:induction false} StepUpDominated(p: PValues, g: PValues, i: nat, t: real, q: real, r: real)
    requires Valid(p) && Valid(g) && Dominated(p, g) && i < |p| && p[i] <= t
    requires StepUp(p, p[i], q) && StepUp(g, t, r)
    ensures q <= r
  {
    hide Ratio, Count;
    var j :| 0 <= j < |g| && g[j] >= t && AtMost(g, g[j]) > 0 && r == Scaled(g, g[j]);
    var v := g[j];
    var u := LargestUpTo(p, v, i);
    assert q <= Scaled(p, p[u]);
    var c, d := AtMost(p, v), AtMost(g, v);
    RatioRaised(p[u], v, |p|, c);
    RatioAntitone(v, |p|, c, d);
  }

  /** Clipping at the end of the procedure changes nothing in exact arithmetic. */
  lemma {:induction false} ClipKeeps(p: PValues, i: nat, q: real)
    requires Valid(p) && i < |p| && p[i] <= q <= 1.0
    ensures Clip(q, 0.0, 1.0) == q
  {
  }

  predicate OutOfRange(x: real) {
    !(0.0 <= x <= 1.0)
  }

  method BenjaminiHochberg(p: PValues) returns (q: Result<seq<real>, AdjustError>)
    ensures q.Err? <==> !Valid(p)
    ensures q.Ok? ==> |q.value| == |p| && forall i :: 0 <= i < |p| ==> StepUp(p, p[i], q.value[i])
  {
    if p == [] {
      return Ok([]);
    }
    if exists i :: 0 <= i < |p| && OutOfRange(p[i]) {
      return Err(InvalidPValues);
    }
    assert Valid(p) by { assert forall i :: 0 <= i < |p| ==> !OutOfRange(p[i]); }
    hide StepUp, ScaledByRank, SuffixMinimum, Ascending, Valid;
    var order := ArgSort(p);
    var ranked := Ranked(p, order);
    var scaled := ScaledByRank(ranked);
    var adjusted := SuffixMinima(scaled);
    forall r | 0 <= r < |p|
      ensures StepUp(p, p[order[r]], Clip(adjusted[r], 0.0, 1.0))
    {
      SuffixMinimumIsStepUp(p, order, r, adjusted[r]);
      StepUpBounds(p, ranked[r], adjusted[r]);
      ClipKeeps(p, order[r], adjusted[r]);
    }
    var result := Scatter(order, seq(|p|, r requires 0 <= r < |adjusted| => Clip(adjusted[r], 0.0, 1.0)));
    forall i | 0 <= i < |p|
      ensures StepUp(p, p[i], result[i])
    {
      var s := Onto(order, |p|, i);
    }
    q := Ok(result);
  }
}
