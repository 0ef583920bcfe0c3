/** Step-down Holm adjustment for a frozen small family. */
module HolmAdjustment {
  import opened Values
  import opened RankedFamilies
  import opened Multiplicity

  /** How many members of the family are not below `t`. */
  function NotBelow(p: PValues, t: real): (n: nat)
    ensures n <= |p|
  {
    CountBound(p, t, true);
    |p| - Less(p, t)
  }

  function Shrunk(p: PValues, t: real): real {
    Times(t, NotBelow(p, t))
  }

  /** `h` is the largest shrunk value among all members of the family up to `t`. */
  ghost predicate StepDown(p: PValues, t: real, h: real) {
    && (forall j :: 0 <= j < |p| && p[j] <= t ==> Shrunk(p, p[j]) <= h)
    && exists j :: 0 <= j < |p| && p[j] <= t && h == Shrunk(p, p[j])
  }

  function ShrunkByRank(ranked: PValues): seq<real> {
    seq(|ranked|, r requires 0 <= r < |ranked| => Times(ranked[r], |ranked| - r))
  }

  lemma {:induction false} RankBelowShrunk(p: PValues, order: seq<nat>, s: nat)
    requires SortsBy(order, p) && Valid(p) && s < |p|
    ensures ShrunkByRank(Ranked(p, order))[s] <= Shrunk(p, p[order[s]])
  {
    hide Times, Count;
    var t := p[order[s]];
    CountBound(p, t, true);
    CountedPositions(p, order, t, true, s);
    TimesMonotone(t, |p| - s, NotBelow(p, t));
  }

  lemma {:induction false} ShrunkIsRanked(p: PValues, order: seq<nat>, r: nat, j: nat)
    requires SortsBy(order, p) && r < |p| && j < |p| && p[j] <= Ranked(p, order)[r]
    ensures Less(p, p[j]) <= r
    ensures Shrunk(p, p[j]) == ShrunkByRank(Ranked(p, order))[Less(p, p[j])]
  {
    hide Times, Count;
    FirstTie(p, order, j);
    CountedPositions(p, order, p[j], true, r);
  }

  /** The running maximum from the smallest value up is the step-down value, wherever ties were put. */
  lemma {:induction false} PrefixMaximumIsStepDown(p: PValues, order: seq<nat>, r: nat, v: real)
    requires SortsBy(order, p) && Valid(p) && r < |p| && PrefixMaximum(ShrunkByRank(Ranked(p, order)), r, v)
    ensures StepDown(p, Ranked(p, order)[r], v)
  {
    var ranked := Ranked(p, order);
    var shrunk := ShrunkByRank(ranked);
    forall j | 0 <= j < |p| && p[j] <= ranked[r]
      ensures Shrunk(p, p[j]) <= v
    {
      ShrunkIsRanked(p, order, r, j);
    }
    var s :| 0 <= s <= r && v == shrunk[s];
    hide ShrunkByRank, Shrunk, Count;
    RankBelowShrunk(p, order, s);
    assert p[order[s]] == ranked[s] <= ranked[r];
    assert v <= Shrunk(p, p[order[s]]) <= v;
  }

  /** A member's adjusted value is never below the member itself. */
  lemma {:induction false} StepDownAbove(p: PValues, i: nat, h: real)
    requires Valid(p) && i < |p| && StepDown(p, p[i], h)
    ensures p[i] <= h
  {
    hide Times, Count;
    CountedLess(p, i);
    TimesMonotone(p[i], 1, NotBelow(p, p[i]));
    TimesOne(p[i]);
  }

  lemma {:induction false} TimesOne(t: real)
    ensures Times(t, 1) == t
  {
  }

  /** A member is not below itself. */
  lemma {:induction false} CountedLess(p: PValues, i: nat)
    requires i < |p|
    ensures Less(p, p[i]) < |p|
    decreases |p|
  {
    var front := p[..|p| - 1];
    CountBound(front, p[i], true);
    if i < |p| - 1 {
      CountedLess(front, i);
    }
  }

  lemma {:induction false} StepDownMonotone(p: PValues, s: real, t: real, g: real, h: real)
    requires s <= t && StepDown(p, s, g) && StepDown(p, t, h)
    ensures g <= h && (s == t ==> g == h)
  {
    hide Shrunk;
    var j :| 0 <= j < |p| && p[j] <= s && g == Shrunk(p, p[j]);
    var i :| 0 <= i < |p| && p[i] <= t && h == Shrunk(p, p[i]);
  }

  /** Holm's procedure walks up the ranks while each value times the number of ranks left is at most `alpha`; the
      adjusted value is at most `alpha` exactly for the hypotheses it reaches. */
  lemma {:induction false} StepDownDecides(p: PValues, order: seq<nat>, t: real, h: real, alpha: real)
    requires SortsBy(order, p) && Valid(p) && StepDown(p, t, h)
    ensures h <= alpha <==>
      forall r: nat :: r < |p| && Ranked(p, order)[r] <= t ==> Times(Ranked(p, order)[r], |p| - r) <= alpha
  {
    hide Times, Count;
    var ranked := Ranked(p, order);
    if h <= alpha {
      forall r: nat | r < |p| && ranked[r] <= t
        ensures Times(ranked[r], |p| - r) <= alpha
      {
        RankBelowShrunk(p, order, r);
        assert Shrunk(p, p[order[r]]) <= h;
      }
    } else {
      var j :| 0 <= j < |p| && p[j] <= t && h == Shrunk(p, p[j]);
      FirstTie(p, order, j);
      ShrunkIsRanked(p, order, Less(p, p[j]), j);
      var r := Less(p, p[j]);
      assert Times(ranked[r], |p| - r) > alpha;
    }
  }

  /** A trial forced to one stays at one, so it is never significant and never helps its candidate. */
  lemma {:induction false} ForcedStaysAtOne(p: PValues, i: nat, h: real)
    requires Valid(p) && i < |p| && p[i] == 1.0 && StepDown(p, p[i], h)
    ensures Clip(h, 0.0, 1.0) == 1.0
  {
    StepDownAbove(p, i, h);
  }

  /** Keeping forced trials in the family never lowers the adjusted value of the others. */
  lemma {:induction false} StepDownPadding(a: PValues, k: nat, b: PValues, t: real, g: real, h: real)
    requires Valid(a + b) && StepDown(a + b, t, g) && StepDown(Padded(a, k, b), t, h)
    ensures g <= h
  {
    var p, q := a + b, Padded(a, k, b);
    var j :| 0 <= j < |p| && p[j] <= t && g == Shrunk(p, p[j]);
    var i := if j < |a| then j else j + k;
    assert q[i] == p[j];
    PaddedCount(a, k, b, p[j], true);
    hide Count, Times;
    TimesMonotone(p[j], NotBelow(p, p[j]), NotBelow(q, p[j]));
    assert Shrunk(q, q[i]) <= h;
  }

  /** Every threshold is met from above by at least as many members of `g` as of `p`. */
  ghost predicate RaisedTo(p: PValues, g: PValues) {
    forall v :: NotBelow(p, v) <= NotBelow(g, v)
  }

  lemma {:induction false} PointwiseRaise(p: PValues, g: PValues)
    requires |p| == |g| && forall i :: 0 <= i < |p| ==> p[i] <= g[i]
    ensures RaisedTo(p, g)
  {
    forall v
      ensures NotBelow(p, v) <= NotBelow(g, v)
    {
      PointwiseCounts(p, g, v);
    }
  }

  lemma {:induction false} PointwiseCounts(p: PValues, g: PValues, v: real)
    requires |p| == |g| && forall i :: 0 <= i < |p| ==> p[i] <= g[i]
    ensures Less(g, v) <= Less(p, v)
    decreases |p|
  {
    if p != [] {
      PointwiseCounts(p[..|p| - 1], g[..|g| - 1], v);
    }
  }

  /** The smallest member from `v` upwards has as many members from it upwards as `v` has. */
  lemma {:induction false} SmallestFrom(p: PValues, v: real, i: nat) returns (u: nat)
    requires i < |p| && p[i] >= v
    ensures u < |p| && v <= p[u] <= p[i] && NotBelow(p, p[u]) == NotBelow(p, v)
  {
    u := i;
    for k := 0 to |p|
      invariant u < |p| && v <= p[u] <= p[i]
      invariant forall j :: 0 <= j < k && p[j] >= v ==> p[u] <= p[j]
    {
      if v <= p[k] < p[u] {
        u := k;
      }
    }
    SameLess(p, p[u], v);
  }

  lemma {:induction false} SameLess(p: PValues, u: real, v: real)
    requires forall j :: 0 <= j < |p| ==> (p[j] < u <==> p[j] < v)
    ensures Less(p, u) == Less(p, v)
    decreases |p|
  {
    if p != [] {
      SameLess(p[..|p| - 1], u, v);
    }
  }

  /** Raising p-values never lowers an adjusted value: failing trials never help the others. */
  lemma {:induction false} StepDownRaised(p: PValues, g: PValues, i: nat, s: real, h: real, k: real)
    requires Valid(p) && RaisedTo(p, g) && i < |g| && s <= g[i]
    requires StepDown(p, s, h) && StepDown(g, g[i], k)
    ensures h <= k
  {
    hide Count, Times, NotBelow;
    var j :| 0 <= j < |p| && p[j] <= s && h == Shrunk(p, p[j]);
    var v := p[j];
    var u := SmallestFrom(g, v, i);
    TimesMonotone(v, NotBelow(p, v), NotBelow(g, v));
    TimesRaised(v, g[u], NotBelow(g, v));
    assert Shrunk(g, g[u]) <= k;
  }

  lemma {:induction false} TimesRaised(u: real, v: real, n: nat)
    requires u <= v
    ensures Times(u, n) <= Times(v, n)
  {
  }

  method HolmBonferroni(p: PValues) returns (h: Result<seq<real>, AdjustError>)
    ensures h.Err? <==> !Valid(p)
    ensures h.Ok? ==> |h.value| == |p| && forall i :: 0 <= i < |p| ==> HolmValue(p, i, h.value[i])
  {
    if p == [] {
      return Ok([]);
    }
    if exists i :: 0 <= i < |p| && OutOfRange(p[i]) {
      return Err(InvalidPValues);
    }
    assert Valid(p) by { assert forall i :: 0 <= i < |p| ==> !OutOfRange(p[i]); }
    hide StepDown, ShrunkByRank, PrefixMaximum, Ascending, Valid;
    var order := ArgSort(p);
    var ranked := Ranked(p, order);
    var shrunk := ShrunkByRank(ranked);
    var adjusted := PrefixMaxima(shrunk);
    forall r | 0 <= r < |p|
      ensures HolmValue(p, order[r], Clip(adjusted[r], 0.0, 1.0))
    {
      PrefixMaximumIsStepDown(p, order, r, adjusted[r]);
      assert StepDown(p, p[order[r]], adjusted[r]);
    }
    hide HolmValue;
    var result := Scatter(order, seq(|p|, r requires 0 <= r < |adjusted| => Clip(adjusted[r], 0.0, 1.0)));
    forall i | 0 <= i < |p|
      ensures HolmValue(p, i, result[i])
    {
      var s := Onto(order, |p|, i);
    }
    h := Ok(result);
  }

  /** `v` is the clipped step-down value of member `i`. */
  ghost predicate HolmValue(p: PValues, i: nat, v: real)
    requires i < |p|
  {
    exists h :: StepDown(p, p[i], h) && v == Clip(h, 0.0, 1.0)
  }
}
