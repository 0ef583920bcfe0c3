/** Sorting a family of p-values, and what the position of a value in sorted order says: how many members of the family
    lie below it.  Sorting may break ties in any way.
 */
module RankedFamilies {
  import opened Values

  type PValues = seq<real>

  predicate Valid(p: PValues) {
    forall i :: 0 <= i < |p| ==> 0.0 <= p[i] <= 1.0
  }

  // ----- counting -----

  predicate Counted(v: real, t: real, strict: bool) {
    if strict then v < t else v <= t
  }

  /** How many values are below `t`, or at most `t`. */
  function Count(p: PValues, t: real, strict: bool): nat
    decreases |p|
  {
    if p == [] then 0 else Count(p[..|p| - 1], t, strict) + if Counted(p[|p| - 1], t, strict) then 1 else 0
  }

  function AtMost(p: PValues, t: real): nat {
    Count(p, t, false)
  }

  function Less(p: PValues, t: real): nat {
    Count(p, t, true)
  }

  lemma {:induction false} CountBound(p: PValues, t: real, strict: bool)
    ensures Count(p, t, strict) <= |p|
    decreases |p|
  {
    if p != [] {
      CountBound(p[..|p| - 1], t, strict);
    }
  }

  lemma {:induction false} CountWitness(p: PValues, t: real, strict: bool, i: nat)
    requires i < |p| && Counted(p[i], t, strict)
    ensures Count(p, t, strict) >= 1
    decreases |p|
  {
    if i < |p| - 1 {
      CountWitness(p[..|p| - 1], t, strict, i);
    }
  }

  lemma {:induction false} CountAll(p: PValues, t: real)
    requires forall i :: 0 <= i < |p| ==> p[i] <= t
    ensures AtMost(p, t) == |p|
    decreases |p|
  {
    if p != [] {
      CountAll(p[..|p| - 1], t);
    }
  }

  lemma {:induction false} CountConcat(a: PValues, b: PValues, t: real, strict: bool)
    ensures Count(a + b, t, strict) == Count(a, t, strict) + Count(b, t, strict)
    decreases |b|
  {
    if b == [] {
      assert a + b == a;
    } else {
      CountConcat(a, b[..|b| - 1], t, strict);
      assert (a + b)[..|a + b| - 1] == a + b[..|b| - 1];
    }
  }

  // ----- sorting -----

  ghost predicate Permutation(order: seq<nat>, n: nat) {
    && |order| == n
    && (forall i :: 0 <= i < n ==> order[i] < n)
    && forall i, j :: 0 <= i < j < n ==> order[i] != order[j]
  }

  function Ranked(p: PValues, order: seq<nat>): PValues
    requires forall i :: 0 <= i < |order| ==> order[i] < |p|
  {
    seq(|order|, r requires 0 <= r < |order| => p[order[r]])
  }

  ghost predicate Ascending(p: PValues) {
    forall r, s :: 0 <= r <= s < |p| ==> p[r] <= p[s]
  }

  /** A sorting permutation; where ties go is left open. */
  ghost predicate SortsBy(order: seq<nat>, p: PValues) {
    Permutation(order, |p|) && Ascending(Ranked(p, order))
  }

  method ArgSort(p: PValues) returns (order: seq<nat>)
    ensures SortsBy(order, p)
  {
    order := [];
    for k := 0 to |p|
      invariant |order| == k
      invariant forall i :: 0 <= i < k ==> order[i] < k
      invariant forall i, j :: 0 <= i < j < k ==> order[i] != order[j]
      invariant Ascending(Ranked(p, order))
    {
      var at := k;
      while at > 0 && p[order[at - 1]] > p[k]
        invariant 0 <= at <= k
        invariant forall i :: at <= i < k ==> p[order[i]] > p[k]
      {
        at := at - 1;
      }
      InsertAscending(p, order, at, k);
      order := order[..at] + [k] + order[at..];
    }
  }

  lemma {:induction false} InsertAscending(p: PValues, order: seq<nat>, at: nat, k: nat)
    requires at <= |order| && k < |p| && forall i :: 0 <= i < |order| ==> order[i] < |p|
    requires Ascending(Ranked(p, order))
    requires at > 0 ==> p[order[at - 1]] <= p[k]
    requires forall i :: at <= i < |order| ==> p[order[i]] > p[k]
    ensures Ascending(Ranked(p, order[..at] + [k] + order[at..]))
  {
    var after := order[..at] + [k] + order[at..];
    var ranked := Ranked(p, order);
    forall r, s | 0 <= r <= s < |after|
      ensures Ranked(p, after)[r] <= Ranked(p, after)[s]
    {
      var r0, s0 := if r <= at then r else r - 1, if s <= at then s else s - 1;
      if r < at && s == at {
        assert ranked[r] <= ranked[at - 1];
      } else if r != at && s != at {
        assert ranked[r0] <= ranked[s0];
      }
    }
  }

  /** A permutation hits every index. */
  lemma {:induction false} Onto(order: seq<nat>, n: nat, i: nat) returns (r: nat)
    requires Permutation(order, n) && i < n
    ensures r < n && order[r] == i
  {
    if exists r :: 0 <= r < n && order[r] == i {
      r :| 0 <= r < n && order[r] == i;
    } else {
      var images := set r | 0 <= r < n :: order[r];
      var others := Below(n) - {i};
      ImageSize(order, n);
      BelowSize(n);
      assert Below(n) == others + {i} && images <= others;
      SubsetSize(images, others);
      assert false;
    }
  }

  function Below(n: nat): (s: set<nat>)
    ensures forall k: nat :: k in s <==> k < n
  {
    if n == 0 then {} else Below(n - 1) + {n - 1}
  }

  lemma {:induction false} BelowSize(n: nat)
    ensures |Below(n)| == n
  {
    if n > 0 {
      BelowSize(n - 1);
    }
  }

  lemma {:induction false} ImageSize(order: seq<nat>, n: nat)
    requires n <= |order| && forall i, j :: 0 <= i < j < n ==> order[i] != order[j]
    ensures |set r | 0 <= r < n :: order[r]| == n
  {
    if n > 0 {
      ImageSize(order, n - 1);
      var smaller := set r | 0 <= r < n - 1 :: order[r];
      assert (set r | 0 <= r < n :: order[r]) == smaller + {order[n - 1]};
    }
  }

  lemma {:induction false} SubsetSize<T>(a: set<T>, b: set<T>)
    requires a <= b
    ensures |a| <= |b|
  {
    assert b == a + (b - a);
  }

  // ----- ranks are counts -----

  function CountedIndices(p: PValues, t: real, strict: bool): (indices: set<nat>)
    ensures forall i: nat :: i in indices <==> i < |p| && Counted(p[i], t, strict)
  {
    set i | 0 <= i < |p| && Counted(p[i], t, strict)
  }

  lemma {:induction false} CountsAreSizes(p: PValues, t: real, strict: bool)
    ensures Count(p, t, strict) == |CountedIndices(p, t, strict)|
    decreases |p|
  {
    hide Counted;
    if p != [] {
      var last := |p| - 1;
      CountsAreSizes(p[..last], t, strict);
      assert CountedIndices(p, t, strict)
        == CountedIndices(p[..last], t, strict) + if Counted(p[last], t, strict) then {last} else {};
    }
  }

  /** An injective image has the size of its source. */
  lemma {:induction false} InjectiveImage(order: seq<nat>, n: nat, source: set<nat>)
    requires Permutation(order, n) && forall r :: r in source ==> r < n
    ensures |set r | r in source :: order[r]| == |source|
    decreases source
  {
    if source != {} {
      var r :| r in source;
      InjectiveImage(order, n, source - {r});
      var rest := set s | s in source - {r} :: order[s];
      assert (set s | s in source :: order[s]) == rest + {order[r]};
    }
  }

  /** A downward closed set of positions is an initial segment. */
  lemma {:induction false} InitialSegment(positions: set<nat>, n: nat)
    requires forall r :: r in positions ==> r < n
    requires forall r, s: nat :: r in positions && s < r ==> s in positions
    ensures positions == Below(|positions|)
  {
    if n == 0 {
      assert positions == {};
    } else if n - 1 in positions {
      assert positions == Below(n);
      BelowSize(n);
    } else {
      InitialSegment(positions, n - 1);
    }
  }

  /** In sorted order, the counted positions are exactly the first `Count` ones. */
  lemma {:induction false} CountedPositions(p: PValues, order: seq<nat>, t: real, strict: bool, r: nat)
    requires SortsBy(order, p) && r < |p|
    ensures Counted(Ranked(p, order)[r], t, strict) <==> r < Count(p, t, strict)
  {
    var ranked := Ranked(p, order);
    var positions := CountedIndices(ranked, t, strict);
    InjectiveImage(order, |p|, positions);
    var images := set s | s in positions :: order[s];
    forall i | i in CountedIndices(p, t, strict)
      ensures i in images
    {
      var s := Onto(order, |p|, i);
      assert s in positions;
    }
    assert images == CountedIndices(p, t, strict);
    CountsAreSizes(p, t, strict);
    assert forall s: nat, u: nat :: s in positions && u < s ==> ranked[u] <= ranked[s];
    InitialSegment(positions, |p|);
  }

  /** The last position of a value in sorted order carries the number of values up to it. */
  lemma {:induction false} LastTie(p: PValues, order: seq<nat>, j: nat)
    requires SortsBy(order, p) && j < |p|
    ensures 0 < AtMost(p, p[j]) <= |p|
    ensures Ranked(p, order)[AtMost(p, p[j]) - 1] == p[j]
  {
    CountBound(p, p[j], false);
    CountWitness(p, p[j], false, j);
    var u := Onto(order, |p|, j);
    CountedPositions(p, order, p[j], false, u);
    CountedPositions(p, order, p[j], false, AtMost(p, p[j]) - 1);
  }

  /** The first position of a value carries the number of values below it. */
  lemma {:induction false} FirstTie(p: PValues, order: seq<nat>, j: nat)
    requires SortsBy(order, p) && j < |p|
    ensures Less(p, p[j]) < |p|
    ensures Ranked(p, order)[Less(p, p[j])] == p[j]
  {
    var u := Onto(order, |p|, j);
    CountedPositions(p, order, p[j], true, u);
    CountedPositions(p, order, p[j], true, Less(p, p[j]));
  }

  /** Puts the value of each sorted position back where it came from. */
  method Scatter(order: seq<nat>, values: seq<real>) returns (result: seq<real>)
    requires Permutation(order, |values|)
    ensures |result| == |values| && forall s :: 0 <= s < |values| ==> result[order[s]] == values[s]
  {
    result := values;
    for r := 0 to |values|
      invariant |result| == |values|
      invariant forall s :: 0 <= s < r ==> result[order[s]] == values[s]
    {
      result := result[order[r] := values[r]];
    }
  }

  // ----- accumulation -----

  ghost predicate SuffixMinimum(xs: seq<real>, r: nat, v: real)
    requires r < |xs|
  {
    && (forall s :: r <= s < |xs| ==> v <= xs[s])
    && exists s :: r <= s < |xs| && v == xs[s]
  }

  ghost predicate PrefixMaximum(xs: seq<real>, r: nat, v: real)
    requires r < |xs|
  {
    && (forall s :: 0 <= s <= r ==> xs[s] <= v)
    && exists s :: 0 <= s <= r && v == xs[s]
  }

  method SuffixMinima(xs: seq<real>) returns (minima: seq<real>)
    requires xs != []
    ensures |minima| == |xs| && forall r :: 0 <= r < |xs| ==> SuffixMinimum(xs, r, minima[r])
  {
    minima := xs;
    var r := |xs| - 1;
    while r > 0
      invariant 0 <= r < |xs| == |minima|
      invariant forall s :: r <= s < |xs| ==> SuffixMinimum(xs, s, minima[s])
    {
      r := r - 1;
      minima := minima[r := MinReal(xs[r], minima[r + 1])];
    }
  }

  method PrefixMaxima(xs: seq<real>) returns (maxima: seq<real>)
    requires xs != []
    ensures |maxima| == |xs| && forall r :: 0 <= r < |xs| ==> PrefixMaximum(xs, r, maxima[r])
  {
    maxima := xs;
    var r := 0;
    while r < |xs| - 1
      invariant 0 <= r < |xs| == |maxima|
      invariant forall s :: 0 <= s <= r ==> PrefixMaximum(xs, s, maxima[s])
    {
      r := r + 1;
      maxima := maxima[r := MaxReal(xs[r], maxima[r - 1])];
    }
  }
}
