/** Grouping a batch of factor evaluations into families by profile and experiment family, padding each family to its
    declared size, and writing the q-values back.  A failed evaluation carries no family name. */
module FactorBatchFamilies {
  import opened Values
  import opened RankedFamilies
  import opened Multiplicity
  import HypothesisFamilies

  datatype Key = Key(profile: string, family: string)

  /** A missing p-value counts as one, a declared count of zero as "not declared". */
  datatype Evaluation =
    | Measured(key: Key, declared: int, pValue: Option<real>)
    | FailedEvaluation

  predicate BelongsTo(e: Evaluation, key: Key) {
    e.Measured? && e.key == key
  }

  predicate Grouped(e: Evaluation) {
    e.Measured? && e.key.family != ""
  }

  function PValue(e: Evaluation): real
    requires e.Measured?
  {
    if e.pValue.Some? then e.pValue.value else 1.0
  }

  /** Positions of the members of one family, in order. */
  function Members(es: seq<Evaluation>, key: Key): (members: seq<nat>)
    ensures forall m :: 0 <= m < |members| ==> members[m] < |es| && BelongsTo(es[members[m]], key)
  {
    if es == [] then []
    else Members(es[..|es| - 1], key) + if BelongsTo(es[|es| - 1], key) then [|es| - 1] else []
  }

  lemma {:induction false} MembersAreAll(es: seq<Evaluation>, key: Key, i: nat)
    requires i < |es| && BelongsTo(es[i], key)
    ensures i in Members(es, key)
  {
    if i < |es| - 1 {
      MembersAreAll(es[..|es| - 1], key, i);
    }
  }

  function MemberPs(es: seq<Evaluation>, key: Key): PValues {
    if es == [] then []
    else MemberPs(es[..|es| - 1], key) + if BelongsTo(es[|es| - 1], key) then [PValue(es[|es| - 1])] else []
  }

  lemma {:induction false} MemberPsAt(es: seq<Evaluation>, key: Key)
    ensures |MemberPs(es, key)| == |Members(es, key)|
    ensures forall m :: 0 <= m < |Members(es, key)| ==> MemberPs(es, key)[m] == PValue(es[Members(es, key)[m]])
  {
    if es != [] {
      MemberPsAt(es[..|es| - 1], key);
    }
  }

  /** The largest declared count of a family of `size` members; an undeclared one stands for `size`. */
  function Declared(es: seq<Evaluation>, key: Key, size: nat): Option<int> {
    if es == [] then None
    else
      var front := Declared(es[..|es| - 1], key, size);
      var e := es[|es| - 1];
      if !BelongsTo(e, key) then front
      else
        var declared := if e.declared == 0 then size else e.declared;
        Some(if front.None? then declared else Max(front.value, declared))
  }

  function DeclaredSize(es: seq<Evaluation>, key: Key): int {
    var declared := Declared(es, key, |Members(es, key)|);
    if declared.None? then 0 else declared.value
  }

  function Padding(es: seq<Evaluation>, key: Key): nat {
    Max(0, DeclaredSize(es, key) - |Members(es, key)|)
  }

  function FamilyOf(es: seq<Evaluation>, key: Key): PValues {
    MemberPs(es, key) + Ones(Padding(es, key))
  }

  /** A family holds as many hypotheses as were declared, or as were measured when those are more. */
  lemma {:induction false} FamilySize(es: seq<Evaluation>, key: Key)
    ensures |FamilyOf(es, key)| == Max(DeclaredSize(es, key), |Members(es, key)|)
  {
    MemberPsAt(es, key);
  }

  // ----- one evaluation fails -----

  lemma {:induction false} MemberPsConcat(l: seq<Evaluation>, r: seq<Evaluation>, key: Key)
    ensures MemberPs(l + r, key) == MemberPs(l, key) + MemberPs(r, key)
    decreases |r|
  {
    if r == [] {
      assert l + r == l;
    } else {
      assert (l + r)[..|l + r| - 1] == l + r[..|r| - 1];
      MemberPsConcat(l, r[..|r| - 1], key);
    }
  }

  lemma {:induction false} FailureRemovesOne(l: seq<Evaluation>, e: Evaluation, r: seq<Evaluation>, key: Key)
    requires BelongsTo(e, key)
    ensures MemberPs(l + [e] + r, key) == MemberPs(l, key) + [PValue(e)] + MemberPs(r, key)
    ensures MemberPs(l + [FailedEvaluation] + r, key) == MemberPs(l, key) + MemberPs(r, key)
  {
    MemberPsConcat(l + [e], r, key);
    MemberPsConcat(l, [e], key);
    MemberPsConcat(l + [FailedEvaluation], r, key);
    MemberPsConcat(l, [FailedEvaluation], key);
    SingleMember(e, key);
    SingleMember(FailedEvaluation, key);
    hide MemberPs;
  }

  lemma {:induction false} SingleMember(e: Evaluation, key: Key)
    ensures MemberPs([e], key) == if BelongsTo(e, key) then [PValue(e)] else []
  {
    assert [e][..0] == [];
  }

  /** The positions of a family are as many as its p-values, so a failure leaves one fewer. */
  lemma {:induction false} MembersAfterFailure(l: seq<Evaluation>, e: Evaluation, r: seq<Evaluation>, key: Key)
    requires BelongsTo(e, key)
    ensures |Members(l + [e] + r, key)| == |MemberPs(l + [e] + r, key)| == |MemberPs(l, key) + MemberPs(r, key)| + 1
    ensures |Members(l + [FailedEvaluation] + r, key)| == |MemberPs(l, key) + MemberPs(r, key)|
  {
    FailureRemovesOne(l, e, r, key);
    MemberPsAt(l + [e] + r, key);
    MemberPsAt(l + [FailedEvaluation] + r, key);
  }

  /** An undeclared count stands for fewer hypotheses in a smaller family. */
  lemma {:induction false} DeclaredShrinks(es: seq<Evaluation>, key: Key, size: nat, smaller: nat)
    requires smaller <= size
    ensures Declared(es, key, smaller).Some? ==>
      Declared(es, key, size).Some? && Declared(es, key, smaller).value <= Declared(es, key, size).value
  {
    if es != [] {
      DeclaredShrinks(es[..|es| - 1], key, size, smaller);
    }
  }

  /** The survivors of a failure declare no more than the family did. */
  lemma {:induction false} DeclaredAfterFailure(l: seq<Evaluation>, e: Evaluation, r: seq<Evaluation>, key: Key,
                                                size: nat, smaller: nat)
    requires smaller <= size
    ensures
      var before, after := Declared(l + [e] + r, key, size), Declared(l + [FailedEvaluation] + r, key, smaller);
      after.Some? ==> before.Some? && after.value <= before.value
    decreases |r|
  {
    var before, after := l + [e] + r, l + [FailedEvaluation] + r;
    if r == [] {
      assert before == l + [e] && after == l + [FailedEvaluation];
      assert before[..|before| - 1] == l && after[..|after| - 1] == l;
      DeclaredShrinks(l, key, size, smaller);
    } else {
      assert before[..|before| - 1] == l + [e] + r[..|r| - 1];
      assert after[..|after| - 1] == l + [FailedEvaluation] + r[..|r| - 1];
      DeclaredAfterFailure(l, e, r[..|r| - 1], key, size, smaller);
    }
  }

  /** The survivors declare at least the size that the family had before the failure. */
  predicate Covered(l: seq<Evaluation>, e: Evaluation, r: seq<Evaluation>, key: Key) {
    var before := l + [e] + r;
    DeclaredSize(l + [FailedEvaluation] + r, key) >= Max(DeclaredSize(before, key), |Members(before, key)|)
  }

  /** When an evaluation fails, its family keeps its size exactly if the survivors declare that size.  The failed one
      counts no longer, neither as a member nor with its own declared count, because it has no family name. */
  lemma {:induction false} FailureKeepsSize(l: seq<Evaluation>, e: Evaluation, r: seq<Evaluation>, key: Key)
    requires BelongsTo(e, key)
    ensures |FamilyOf(l + [FailedEvaluation] + r, key)| <= |FamilyOf(l + [e] + r, key)|
    ensures |FamilyOf(l + [FailedEvaluation] + r, key)| == |FamilyOf(l + [e] + r, key)| <==> Covered(l, e, r, key)
  {
    var before, after := l + [e] + r, l + [FailedEvaluation] + r;
    MembersAfterFailure(l, e, r, key);
    DeclaredAfterFailure(l, e, r, key, |Members(before, key)|, |Members(after, key)|);
    FamilySize(before, key);
    FamilySize(after, key);
    hide Declared, Members, MemberPs, FamilyOf;
  }

  /** While the survivors declare the size of the family, a failing evaluation never lowers the q-value of another
      one. */
  lemma {:induction false} FailureNeverHelps(l: seq<Evaluation>, e: Evaluation, r: seq<Evaluation>, key: Key, i: nat,
                                             q: real, s: real)
    requires BelongsTo(e, key) && Covered(l, e, r, key)
    requires Valid(FamilyOf(l + [e] + r, key)) && i < |MemberPs(l, key) + MemberPs(r, key)|
    requires StepUp(FamilyOf(l + [e] + r, key), (MemberPs(l, key) + MemberPs(r, key))[i], q)
    requires StepUp(FamilyOf(l + [FailedEvaluation] + r, key), (MemberPs(l, key) + MemberPs(r, key))[i], s)
    ensures q <= s
  {
    hide StepUp, Valid;
    var before, after := l + [e] + r, l + [FailedEvaluation] + r;
    var a, b := MemberPs(l, key), MemberPs(r, key);
    FailureRemovesOne(l, e, r, key);
    FailureKeepsSize(l, e, r, key);
    var failed := Padding(before, key);
    assert Padding(after, key) == failed + 1;
    assert FamilyOf(before, key) == HypothesisFamilies.Family(a + [PValue(e)] + b, failed, [], 0);
    assert FamilyOf(after, key) == HypothesisFamilies.Family(a + b, failed + 1, [], 0);
    HypothesisFamilies.FailingNeverHelps(a, PValue(e), b, failed, [], 0, i, q, s);
  }

  // ----- what happens otherwise -----

  predicate AllEqual(p: PValues, c: real) {
    forall i :: 0 <= i < |p| ==> p[i] == c
  }

  /** The smaller value of a family of `k` equal values and ones. */
  lemma {:induction false} EqualAndOnes(p: PValues, c: real, k: nat)
    requires 0.0 < c < 1.0 && k > 0 && AtMost(p, c) == k && Ratio(c, |p|, k) <= 1.0
    requires forall i :: 0 <= i < |p| ==> p[i] == c || p[i] == 1.0
    ensures StepUp(p, c, Ratio(c, |p|, k))
  {
    hide Count;
    var j := HasEqual(p, c);
    assert Scaled(p, p[j]) == Ratio(c, |p|, k);
    CountAll(p, 1.0);
    RatioSame(1.0, |p|);
    hide Ratio;
  }

  lemma {:induction false} HasEqual(p: PValues, c: real) returns (j: nat)
    requires c < 1.0 && AtMost(p, c) > 0
    requires forall i :: 0 <= i < |p| ==> p[i] == c || p[i] == 1.0
    ensures j < |p| && p[j] == c
  {
    if p[|p| - 1] == c {
      j := |p| - 1;
    } else {
      j := HasEqual(p[..|p| - 1], c);
    }
  }

  lemma {:induction false} EqualAndOnesCount(a: PValues, k: nat, c: real)
    requires c < 1.0 && AllEqual(a, c)
    ensures AtMost(a + Ones(k), c) == |a|
  {
    CountConcat(a, Ones(k), c, false);
    CountAll(a, c);
    OnesCount(k, c, false);
  }

  lemma {:induction false} EqualOneEqualCount(a: PValues, b: PValues, k: nat, c: real)
    requires c < 1.0 && AllEqual(a, c) && AllEqual(b, c)
    ensures AtMost(a + [1.0] + b + Ones(k), c) == |a| + |b|
  {
    CountConcat(a + [1.0] + b, Ones(k), c, false);
    CountConcat(a + [1.0], b, c, false);
    CountConcat(a, [1.0], c, false);
    CountAll(a, c);
    CountAll(b, c);
    OnesCount(k, c, false);
    assert Count([1.0], c, false) == 0;
  }

  lemma {:induction false} RatioShrinks(c: real, m: nat, n: nat, k: nat)
    requires c > 0.0 && k > 0 && m < n
    ensures Ratio(c, m, k) < Ratio(c, n, k)
  {
    assert c * m as real < c * n as real;
  }

  /** Whenever the survivors do not declare the size of their family, the failure of an evaluation that was worth
      nothing lowers q-values: with equal p-values `c` of the `k` survivors, the family of fewer hypotheses scales them
      by less. */
  lemma {:induction false} UncoveredFailureHelps(l: seq<Evaluation>, e: Evaluation, r: seq<Evaluation>, key: Key,
                                                 c: real)
    requires BelongsTo(e, key) && PValue(e) == 1.0 && !Covered(l, e, r, key)
    requires AllEqual(MemberPs(l, key), c) && AllEqual(MemberPs(r, key), c) && 0.0 < c < 1.0
    requires |MemberPs(l, key)| + |MemberPs(r, key)| > 0
    requires Ratio(c, |FamilyOf(l + [e] + r, key)|, |MemberPs(l, key)| + |MemberPs(r, key)|) <= 1.0
    ensures
      var k := |MemberPs(l, key)| + |MemberPs(r, key)|;
      var before, after := FamilyOf(l + [e] + r, key), FamilyOf(l + [FailedEvaluation] + r, key);
      && StepUp(before, c, Ratio(c, |before|, k)) && StepUp(after, c, Ratio(c, |after|, k))
      && Ratio(c, |after|, k) < Ratio(c, |before|, k)
  {
    hide StepUp, Declared, Count, Ratio;
    var a, b := MemberPs(l, key), MemberPs(r, key);
    var before, after := FamilyOf(l + [e] + r, key), FamilyOf(l + [FailedEvaluation] + r, key);
    FailureRemovesOne(l, e, r, key);
    FailureKeepsSize(l, e, r, key);
    hide MemberPs, Members;
    EqualOneEqualCount(a, b, Padding(l + [e] + r, key), c);
    EqualAndOnesCount(a + b, Padding(l + [FailedEvaluation] + r, key), c);
    RatioShrinks(c, |after|, |before|, |a| + |b|);
    EqualAndOnes(before, c, |a| + |b|);
    EqualAndOnes(after, c, |a| + |b|);
  }

  lemma {:induction false} SingleSizes(e: Evaluation, key: Key, size: nat)
    requires BelongsTo(e, key)
    ensures Members([e], key) == [0] && Declared([e], key, size) == Some(if e.declared == 0 then size else e.declared)
  {
    assert [e][..0] == [];
    assert Members([], key) == [] && Declared([], key, size) == None;
  }

  lemma {:induction false} PairSizes(key: Key, d: int, f: int, p: Option<real>, q: Option<real>)
    ensures
      var both, one := [Measured(key, d, p), Measured(key, f, q)], [Measured(key, d, p), FailedEvaluation];
      && DeclaredSize(both, key) == Max(if d == 0 then 2 else d, if f == 0 then 2 else f) && |Members(both, key)| == 2
      && DeclaredSize(one, key) == (if d == 0 then 1 else d) && |Members(one, key)| == 1
  {
    var both, one := [Measured(key, d, p), Measured(key, f, q)], [Measured(key, d, p), FailedEvaluation];
    assert both[..1] == [both[0]] && one[..1] == [both[0]];
    SingleSizes(both[0], key, 1);
    SingleSizes(both[0], key, 2);
  }

  /** Such pairs are ordinary: two candidates that declare one hypothesis each, as the platform sends them when no count
      is stored, or an older version of a factor that declared fewer than the next one.  The failure of the sibling
      turns 0.06, or 0.09 when it declared three, into 0.03. */
  lemma {:induction false} SiblingFailureLowersQ(f: int)
    requires f == 1 || f == 3
    ensures
      var key := Key("recent_3y", "momentum");
      var e, g := Measured(key, 1, Some(0.03)), Measured(key, f, None);
      && StepUp(FamilyOf([e, g], key), 0.03, if f == 1 then 0.06 else 0.09)
      && StepUp(FamilyOf([e, FailedEvaluation], key), 0.03, 0.03)
  {
    var key := Key("recent_3y", "momentum");
    var e, g := Measured(key, 1, Some(0.03)), Measured(key, f, None);
    assert [e] + [g] + [] == [e, g] && [e] + [FailedEvaluation] + [] == [e, FailedEvaluation];
    PairSizes(key, 1, f, e.pValue, g.pValue);
    FamilySize([e, g], key);
    FamilySize([e, FailedEvaluation], key);
    SingleMember(e, key);
    hide StepUp, Declared, Members, FamilyOf;
    assert Ratio(0.03, 2, 1) == 0.06 && Ratio(0.03, 3, 1) == 0.09 && Ratio(0.03, 1, 1) == 0.03;
    UncoveredFailureHelps([e], g, [], key, 0.03);
  }

  // ----- the loops -----

  /** Every grouped evaluation carries the q-value of its own family, and nothing else is written. */
  ghost predicate Assigned(es: seq<Evaluation>, i: nat, q: Option<real>)
    requires i < |es|
  {
    match q
    case Some(v) => Grouped(es[i]) && StepUp(FamilyOf(es, es[i].key), PValue(es[i]), v)
    case None => !Grouped(es[i])
  }

  lemma {:induction false} MembersStep(es: seq<Evaluation>, i: nat, key: Key)
    requires i < |es|
    ensures Members(es[..i + 1], key) == Members(es[..i], key) + if BelongsTo(es[i], key) then [i] else []
  {
    assert es[..i + 1][..i] == es[..i];
  }

  /** After the first `i` evaluations: every named family seen so far, with its members in order. */
  ghost predicate GroupedSoFar(es: seq<Evaluation>, i: nat, families: map<Key, seq<nat>>)
    requires i <= |es|
  {
    && (forall key :: key in families ==> families[key] == Members(es[..i], key) && key.family != "")
    && (forall j :: 0 <= j < i && Grouped(es[j]) ==> es[j].key in families)
    && forall key :: key !in families && key.family != "" ==> Members(es[..i], key) == []
  }

  lemma {:induction false} GroupStep(es: seq<Evaluation>, i: nat, families: map<Key, seq<nat>>,
                                     after: map<Key, seq<nat>>)
    requires i < |es| && GroupedSoFar(es, i, families)
    requires after ==
      if !Grouped(es[i]) then families
      else families[es[i].key := (if es[i].key in families then families[es[i].key] else []) + [i]]
    ensures GroupedSoFar(es, i + 1, after)
  {
    forall key
      ensures Members(es[..i + 1], key) == Members(es[..i], key) + if BelongsTo(es[i], key) then [i] else []
    {
      MembersStep(es, i, key);
    }
    hide Members;
  }

  method GroupFamilies(es: seq<Evaluation>) returns (order: seq<Key>, families: map<Key, seq<nat>>)
    ensures forall key :: key in order <==> key in families
    ensures forall key :: key in families ==> families[key] == Members(es, key) && key.family != ""
    ensures forall i :: 0 <= i < |es| && Grouped(es[i]) ==> es[i].key in order
  {
    order, families := [], map[];
    for i := 0 to |es|
      invariant forall key :: key in order <==> key in families
      invariant GroupedSoFar(es, i, families)
    {
      ghost var before := families;
      if Grouped(es[i]) {
        var key := es[i].key;
        if key !in families {
          order := order + [key];
          families := families[key := []];
        }
        families := families[key := families[key] + [i]];
      }
      GroupStep(es, i, before, families);
      hide GroupedSoFar;
    }
    assert es[..|es|] == es;
  }

  method FamilyQ(es: seq<Evaluation>, key: Key) returns (qs: Result<seq<real>, AdjustError>)
    ensures qs.Err? <==> !Valid(MemberPs(es, key))
    ensures qs.Ok? ==> |qs.value| >= |Members(es, key)|
    ensures qs.Ok? ==> forall m :: 0 <= m < |Members(es, key)| ==>
      StepUp(FamilyOf(es, key), PValue(es[Members(es, key)[m]]), qs.value[m])
  {
    var family := FamilyOf(es, key);
    MemberPsAt(es, key);
    hide Members, StepUp;
    assert forall m :: 0 <= m < |Members(es, key)| ==> family[m] == MemberPs(es, key)[m];
    assert forall m :: |Members(es, key)| <= m < |family| ==> family[m] == 1.0;
    qs := BenjaminiHochberg(family);
  }

  ghost predicate Sound(es: seq<Evaluation>, q: seq<Option<real>>)
    requires |q| == |es|
  {
    forall i :: 0 <= i < |es| && q[i].Some? ==> Assigned(es, i, q[i])
  }

  lemma {:induction false} SoundStep(es: seq<Evaluation>, q: seq<Option<real>>, i: nat, v: Option<real>)
    requires |q| == |es| && i < |es| && Sound(es, q) && Assigned(es, i, v)
    ensures Sound(es, q[i := v])
  {
    hide Assigned;
  }

  method AssignQValues(es: seq<Evaluation>) returns (r: Result<seq<Option<real>>, AdjustError>)
    ensures r.Ok? ==> |r.value| == |es| && forall i :: 0 <= i < |es| ==> Assigned(es, i, r.value[i])
    ensures r.Err? ==> exists i :: 0 <= i < |es| && Grouped(es[i]) && OutOfRange(PValue(es[i]))
  {
    hide StepUp, FamilyOf, Members;
    var order, families := GroupFamilies(es);
    var q: seq<Option<real>> := seq(|es|, _ => None);
    for k := 0 to |order|
      invariant |q| == |es| && Sound(es, q)
      invariant forall i :: 0 <= i < |es| && Grouped(es[i]) && es[i].key in order[..k] ==> q[i].Some?
    {
      var key := order[k];
      var qs := FamilyQ(es, key);
      if qs.Err? {
        InvalidMember(es, key);
        return Err(InvalidPValues);
      }
      var members := families[key];
      for m := 0 to |members|
        invariant |q| == |es| && Sound(es, q)
        invariant forall i :: 0 <= i < |es| && Grouped(es[i]) && es[i].key in order[..k] ==> q[i].Some?
        invariant forall n :: 0 <= n < m ==> q[members[n]].Some?
      {
        SoundStep(es, q, members[m], Some(qs.value[m]));
        hide Sound;
        q := q[members[m] := Some(qs.value[m])];
      }
      forall i | 0 <= i < |es| && Grouped(es[i]) && es[i].key == key
        ensures q[i].Some?
      {
        MembersAreAll(es, key, i);
      }
    }
    assert order[..|order|] == order;
    r := Ok(q);
  }

  lemma {:induction false} InvalidMember(es: seq<Evaluation>, key: Key)
    requires !Valid(MemberPs(es, key)) && key.family != ""
    ensures exists i :: 0 <= i < |es| && Grouped(es[i]) && OutOfRange(PValue(es[i]))
  {
    MemberPsAt(es, key);
    var m :| 0 <= m < |MemberPs(es, key)| && !(0.0 <= MemberPs(es, key)[m] <= 1.0);
    assert OutOfRange(PValue(es[Members(es, key)[m]]));
  }
}
