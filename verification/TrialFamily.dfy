/** The run-level family of trials of a fin_quant run: one trial per frozen incumbent, and per candidate one per
    ablation plus one against its incumbent.  Candidates that fail stay in the family with a p-value of one.
 */
module TrialFamily {
  import opened Values
  import opened RankedFamilies
  import opened HolmAdjustment
  import Multiplicity
  import opened SortedLists

  /** Daily returns by date. */
  type Series = map<nat, real>

  datatype Ablation = FactorOnly | ModelOnly | Joint

  const REQUIRED_ABLATIONS: seq<Ablation> := [FactorOnly, ModelOnly, Joint]
  const MIN_OBSERVATIONS: nat := 40

  datatype Status = Passed | Failed | Blocked

  /** One candidate with its evaluation.  Identifiers stand for their position in string order.  `incumbent` is what
      verifying this candidate's frozen incumbent gives, its returns or the text of the error, and `collected` the
      ablation returns, or nothing when collecting them raises. */
  datatype Candidate = Candidate(id: nat, baseline: Option<nat>, status: Status, incumbent: Result<Series, string>,
                                 collected: Option<map<Ablation, Series>>)

  datatype TrialName = Incumbent(baseline: nat) | Bundle(id: nat, ablation: Ablation) | JointDelta(id: nat)

  datatype Trial = Trial(name: TrialName, series: Series)

  datatype Family = Family(trials: seq<Trial>, forced: set<TrialName>, statuses: seq<Status>)

  datatype FamilyError = NoVerifiedIncumbent

  /** What the caller passes: candidates indexed by distinct identifiers, with the returns of every ablation. */
  ghost predicate WellFormed(cs: seq<Candidate>) {
    && (forall i, j :: 0 <= i < j < |cs| ==> cs[i].id != cs[j].id)
    && forall i :: 0 <= i < |cs| ==> Complete(cs[i])
  }

  /** Collected returns cover every ablation. */
  predicate Complete(c: Candidate) {
    c.collected.Some? ==> {FactorOnly, ModelOnly, Joint} <= c.collected.value.Keys
  }

  // ----- verifying the incumbents -----

  /** Verified incumbents, the first of them, and candidates with an incumbent error.  An error with an empty text
      counts as none. */
  datatype Incumbents = Incumbents(verified: map<nat, Series>, reference: Option<Series>, rejected: set<nat>)

  function VerifyOne(v: Incumbents, c: Candidate): Incumbents {
    if c.baseline.None? then v.(rejected := v.rejected + {c.id})
    else if c.baseline.value in v.verified then v
    else
      match c.incumbent
      case Err(text) => if text == "" then v else v.(rejected := v.rejected + {c.id})
      case Ok(series) =>
        v.(verified := v.verified[c.baseline.value := series],
           reference := if v.reference.None? then Some(series) else v.reference)
  }

  function Verify(cs: seq<Candidate>): Incumbents {
    if cs == [] then Incumbents(map[], None, {}) else VerifyOne(Verify(cs[..|cs| - 1]), cs[|cs| - 1])
  }

  /** A candidate without an incumbent error has a verified incumbent, found by itself or by another candidate, unless
      its own verification failed with an empty text. */
  lemma {:induction false} NotRejectedIsVerified(cs: seq<Candidate>, i: nat)
    requires WellFormed(cs) && i < |cs|
    ensures cs[i].id !in Verify(cs).rejected ==> cs[i].baseline.Some?
    ensures cs[i].id !in Verify(cs).rejected && cs[i].incumbent != Err("") ==>
      cs[i].baseline.value in Verify(cs).verified
  {
    if i < |cs| - 1 {
      NotRejectedIsVerified(cs[..|cs| - 1], i);
    }
  }

  /** No incumbent is verified exactly when verification gave nothing for any named incumbent. */
  lemma {:induction false} NothingVerified(cs: seq<Candidate>)
    ensures Verify(cs).reference.None? <==>
      forall i :: 0 <= i < |cs| ==> cs[i].baseline.None? || cs[i].incumbent.Err?
    ensures Verify(cs).reference.None? <==> Verify(cs).verified == map[]
  {
    if cs != [] {
      NothingVerified(cs[..|cs| - 1]);
      var c, v := cs[|cs| - 1], Verify(cs[..|cs| - 1]);
      if c.baseline.Some? && c.incumbent.Ok? {
        assert c.baseline.value in Verify(cs).verified;
      }
      if c.baseline.Some? && c.baseline.value in v.verified {
        assert v.verified != map[];
      }
    }
  }

  // ----- the names -----

  function Baselines(cs: seq<Candidate>): set<nat> {
    set i | 0 <= i < |cs| && cs[i].baseline.Some? :: cs[i].baseline.value
  }

  function CandidateNames(c: Candidate): seq<TrialName> {
    [Bundle(c.id, FactorOnly), Bundle(c.id, ModelOnly), Bundle(c.id, Joint), JointDelta(c.id)]
  }

  function AllCandidateNames(cs: seq<Candidate>): seq<TrialName> {
    if cs == [] then [] else AllCandidateNames(cs[..|cs| - 1]) + CandidateNames(cs[|cs| - 1])
  }

  function IncumbentNames(ids: seq<nat>): seq<TrialName> {
    seq(|ids|, i requires 0 <= i < |ids| => Incumbent(ids[i]))
  }

  function TrialNames(trials: seq<Trial>): seq<TrialName> {
    seq(|trials|, i requires 0 <= i < |trials| => trials[i].name)
  }

  // ----- one candidate -----

  function Overlap(a: Series, b: Series): set<nat> {
    a.Keys * b.Keys
  }

  function Difference(a: Series, b: Series): Series {
    map day | day in Overlap(a, b) :: a[day] - b[day]
  }

  function Zeros(reference: Series): Series {
    map day | day in reference :: 0.0
  }

  /** Evaluated, with a verified incumbent and complete run-level returns. */
  predicate Healthy(c: Candidate, v: Incumbents) {
    c.status.Passed? && c.id !in v.rejected && c.collected.Some?
  }

  /** Healthy, and observed together with its incumbent on enough days. */
  predicate Survives(c: Candidate, v: Incumbents) {
    && Healthy(c, v)
    && Joint in c.collected.value && c.baseline.Some? && c.baseline.value in v.verified
    && |Overlap(c.collected.value[Joint], v.verified[c.baseline.value])| >= MIN_OBSERVATIONS
  }

  /** Healthy, although nothing verified its incumbent: the verification error had an empty text. */
  predicate Silent(c: Candidate, v: Incumbents) {
    Healthy(c, v) && c.baseline.Some? && c.baseline.value !in v.verified
  }

  function AblationReturns(c: Candidate, v: Incumbents, zero: Series, a: Ablation): Series {
    if Healthy(c, v) && a in c.collected.value then c.collected.value[a] else zero
  }

  function CandidateTrials(c: Candidate, v: Incumbents, zero: Series): seq<Trial> {
    [ Trial(Bundle(c.id, FactorOnly), AblationReturns(c, v, zero, FactorOnly)),
      Trial(Bundle(c.id, ModelOnly), AblationReturns(c, v, zero, ModelOnly)),
      Trial(Bundle(c.id, Joint), AblationReturns(c, v, zero, Joint)),
      Trial(JointDelta(c.id),
            if Survives(c, v) then Difference(c.collected.value[Joint], v.verified[c.baseline.value]) else zero) ]
  }

  function CandidateForced(c: Candidate, v: Incumbents): set<TrialName> {
    if Survives(c, v) then {}
    else if Silent(c, v) then {JointDelta(c.id)}
    else {Bundle(c.id, FactorOnly), Bundle(c.id, ModelOnly), Bundle(c.id, Joint), JointDelta(c.id)}
  }

  function FinalStatus(c: Candidate, v: Incumbents): Status {
    if Survives(c, v) || Silent(c, v) then Passed else if c.status.Blocked? then Blocked else Failed
  }

  function AllTrials(cs: seq<Candidate>, v: Incumbents, zero: Series): seq<Trial> {
    if cs == [] then [] else AllTrials(cs[..|cs| - 1], v, zero) + CandidateTrials(cs[|cs| - 1], v, zero)
  }

  function AllForced(cs: seq<Candidate>, v: Incumbents): set<TrialName> {
    if cs == [] then {} else AllForced(cs[..|cs| - 1], v) + CandidateForced(cs[|cs| - 1], v)
  }

  function IncumbentTrials(ids: seq<nat>, v: Incumbents, zero: Series): seq<Trial> {
    seq(|ids|, i requires 0 <= i < |ids| =>
      Trial(Incumbent(ids[i]), if ids[i] in v.verified then v.verified[ids[i]] else zero))
  }

  function IncumbentForced(ids: seq<nat>, v: Incumbents): set<TrialName> {
    set i | 0 <= i < |ids| && ids[i] !in v.verified :: Incumbent(ids[i])
  }

  // ----- assembling the family -----

  ghost predicate Assembled(cs: seq<Candidate>, ids: seq<nat>, f: Family) {
    var v := Verify(cs);
    && v.reference.Some? && Lists(ids, Baselines(cs))
    && f.trials == IncumbentTrials(ids, v, Zeros(v.reference.value)) + AllTrials(cs, v, Zeros(v.reference.value))
    && f.forced == IncumbentForced(ids, v) + AllForced(cs, v)
    && |f.statuses| == |cs| && forall i :: 0 <= i < |cs| ==> f.statuses[i] == FinalStatus(cs[i], v)
  }

  method VerifyIncumbents(cs: seq<Candidate>) returns (v: Incumbents)
    ensures v == Verify(cs)
  {
    v := Incumbents(map[], None, {});
    for i := 0 to |cs|
      invariant v == Verify(cs[..i])
    {
      assert cs[..i + 1][..i] == cs[..i];
      v := VerifyOne(v, cs[i]);
    }
    assert cs[..|cs|] == cs;
  }

  /** The four trials of one candidate, whether they are forced, and the candidate's final status. */
  method AssembleCandidate(c: Candidate, v: Incumbents, zero: Series)
    returns (trials: seq<Trial>, forced: set<TrialName>, status: Status)
    requires Complete(c)
    requires c.id !in v.rejected ==> c.baseline.Some?
    ensures trials == CandidateTrials(c, v, zero) && forced == CandidateForced(c, v) && status == FinalStatus(c, v)
  {
    trials, forced, status := [], {}, c.status;
    var failed := c.status != Passed || c.id in v.rejected || c.collected.None?;
    if failed && status != Blocked {
      status := Failed;
    }
    for k := 0 to |REQUIRED_ABLATIONS|
      invariant trials == CandidateTrials(c, v, zero)[..k]
      invariant forced == if failed then set j | 0 <= j < k :: Bundle(c.id, REQUIRED_ABLATIONS[j]) else {}
    {
      var a := REQUIRED_ABLATIONS[k];
      trials := trials + [Trial(Bundle(c.id, a), if failed then zero else c.collected.value[a])];
      if failed {
        forced := forced + {Bundle(c.id, a)};
      }
    }
    var bundles := {Bundle(c.id, FactorOnly), Bundle(c.id, ModelOnly), Bundle(c.id, Joint)};
    assert forced == if failed then bundles else {} by {
      assert REQUIRED_ABLATIONS[0] == FactorOnly && REQUIRED_ABLATIONS[1] == ModelOnly;
      assert REQUIRED_ABLATIONS[2] == Joint;
      assert forall j :: 0 <= j < 3 ==> Bundle(c.id, REQUIRED_ABLATIONS[j]) in bundles;
    }
    var delta := zero;
    if failed || c.baseline.value !in v.verified {
      forced := forced + {JointDelta(c.id)};
    } else {
      var joint, incumbent := c.collected.value[Joint], v.verified[c.baseline.value];
      if |Overlap(joint, incumbent)| < MIN_OBSERVATIONS {
        status := Failed;
        forced := bundles + {JointDelta(c.id)};
      } else {
        delta := Difference(joint, incumbent);
      }
    }
    trials := trials + [Trial(JointDelta(c.id), delta)];
  }

  /** The part of the family that concerns the first `i` candidates. */
  ghost predicate Partly(cs: seq<Candidate>, i: nat, ids: seq<nat>, v: Incumbents, zero: Series, f: Family)
    requires i <= |cs|
  {
    && f.trials == IncumbentTrials(ids, v, zero) + AllTrials(cs[..i], v, zero)
    && f.forced == IncumbentForced(ids, v) + AllForced(cs[..i], v)
    && |f.statuses| == i && forall k :: 0 <= k < i ==> f.statuses[k] == FinalStatus(cs[k], v)
  }

  lemma {:induction false} PartlyStep(cs: seq<Candidate>, i: nat, ids: seq<nat>, v: Incumbents, zero: Series,
                                      f: Family, g: Family)
    requires i < |cs| && Partly(cs, i, ids, v, zero, f)
    requires g.trials == f.trials + CandidateTrials(cs[i], v, zero)
    requires g.forced == f.forced + CandidateForced(cs[i], v)
    requires g.statuses == f.statuses + [FinalStatus(cs[i], v)]
    ensures Partly(cs, i + 1, ids, v, zero, g)
  {
    assert cs[..i + 1][..i] == cs[..i];
    hide CandidateTrials, CandidateForced, FinalStatus, IncumbentTrials, IncumbentForced;
  }

  method AssembleFamily(cs: seq<Candidate>) returns (r: Result<Family, FamilyError>, ghost ids: seq<nat>)
    requires WellFormed(cs)
    ensures r.Err? <==> forall i :: 0 <= i < |cs| ==> cs[i].baseline.None? || cs[i].incumbent.Err?
    ensures r.Ok? ==> Assembled(cs, ids, r.value)
  {
    ids := [];
    var v := VerifyIncumbents(cs);
    NothingVerified(cs);
    if v.reference.None? {
      return Err(NoVerifiedIncumbent), ids;
    }
    var zero := Zeros(v.reference.value);
    var baselines := Sort(Baselines(cs));
    ids := baselines;
    var f := Family(IncumbentTrials(baselines, v, zero), IncumbentForced(baselines, v), []);
    hide Verify, CandidateTrials, CandidateForced, FinalStatus, Lists, Complete, IncumbentTrials, IncumbentForced;
    for i := 0 to |cs|
      invariant Partly(cs, i, baselines, v, zero, f)
    {
      NotRejectedIsVerified(cs, i);
      var trials, forced, status := AssembleCandidate(cs[i], v, zero);
      ghost var before := f;
      f := Family(f.trials + trials, f.forced + forced, f.statuses + [status]);
      PartlyStep(cs, i, baselines, v, zero, before, f);
      hide Partly;
    }
    assert cs[..|cs|] == cs;
    r := Ok(f);
  }

  // ----- what the family guarantees -----

  lemma {:induction false} NamesOfTrials(cs: seq<Candidate>, v: Incumbents, zero: Series)
    ensures TrialNames(AllTrials(cs, v, zero)) == AllCandidateNames(cs)
    ensures |AllCandidateNames(cs)| == 4 * |cs|
  {
    if cs != [] {
      var front, c := cs[..|cs| - 1], cs[|cs| - 1];
      NamesOfTrials(front, v, zero);
      assert TrialNames(CandidateTrials(c, v, zero)) == CandidateNames(c);
      assert TrialNames(AllTrials(cs, v, zero)) == TrialNames(AllTrials(front, v, zero)) + CandidateNames(c);
    }
  }

  lemma {:induction false} ShapeOf(cs: seq<Candidate>, ids: seq<nat>, v: Incumbents, zero: Series, trials: seq<Trial>)
    requires trials == IncumbentTrials(ids, v, zero) + AllTrials(cs, v, zero) && Lists(ids, Baselines(cs))
    ensures TrialNames(trials) == IncumbentNames(ids) + AllCandidateNames(cs)
    ensures |trials| == |Baselines(cs)| + TRIALS_PER_CANDIDATE * |cs|
  {
    NamesOfTrials(cs, v, zero);
    ListSize(ids, Baselines(cs));
    hide AllTrials, AllCandidateNames, Lists, Baselines;
    NamesConcat(IncumbentTrials(ids, v, zero), AllTrials(cs, v, zero));
    assert TrialNames(IncumbentTrials(ids, v, zero)) == IncumbentNames(ids);
    assert |trials| == |TrialNames(trials)|;
  }

  /** One trial per ablation and one against the incumbent. */
  const TRIALS_PER_CANDIDATE: nat := 4

  /** The family holds one trial per distinct incumbent and four per candidate, named by identity alone. */
  lemma {:induction false} FamilyShape(cs: seq<Candidate>, ids: seq<nat>, f: Family)
    requires Assembled(cs, ids, f)
    ensures TrialNames(f.trials) == IncumbentNames(ids) + AllCandidateNames(cs)
    ensures |f.trials| == |Baselines(cs)| + TRIALS_PER_CANDIDATE * |cs|
  {
    hide Verify, AllTrials, AllCandidateNames, Lists, Baselines, TrialNames, IncumbentNames, IncumbentTrials;
    ShapeOf(cs, ids, Verify(cs), Zeros(Verify(cs).reference.value), f.trials);
  }

  lemma {:induction false} NamesConcat(a: seq<Trial>, b: seq<Trial>)
    ensures TrialNames(a + b) == TrialNames(a) + TrialNames(b)
  {
  }

  /** Same candidates and incumbents, whatever else happened to them. */
  ghost predicate SameIdentities(a: seq<Candidate>, b: seq<Candidate>) {
    |a| == |b| && forall i :: 0 <= i < |a| ==> a[i].id == b[i].id && a[i].baseline == b[i].baseline
  }

  lemma {:induction false} SameCandidateNames(a: seq<Candidate>, b: seq<Candidate>)
    requires SameIdentities(a, b)
    ensures AllCandidateNames(a) == AllCandidateNames(b)
  {
    if a != [] {
      SameCandidateNames(a[..|a| - 1], b[..|b| - 1]);
    }
  }

  /** Whichever candidates and incumbents fail, the family has the same trials in the same order. */
  lemma {:induction false} NamesIgnoreFailures(a: seq<Candidate>, b: seq<Candidate>, idsA: seq<nat>, idsB: seq<nat>,
                                               f: Family, g: Family)
    requires SameIdentities(a, b) && Assembled(a, idsA, f) && Assembled(b, idsB, g)
    ensures TrialNames(f.trials) == TrialNames(g.trials)
  {
    FamilyShape(a, idsA, f);
    FamilyShape(b, idsB, g);
    SameCandidateNames(a, b);
    forall x
      ensures x in Baselines(a) <==> x in Baselines(b)
    {
      if x in Baselines(a) {
        var i :| 0 <= i < |a| && a[i].baseline == Some(x);
        assert b[i].baseline == Some(x);
      }
      if x in Baselines(b) {
        var i :| 0 <= i < |b| && b[i].baseline == Some(x);
        assert a[i].baseline == Some(x);
      }
    }
    ListedOnce(idsA, idsB, Baselines(a));
  }

  predicate Belongs(name: TrialName, id: nat) {
    !name.Incumbent? && name.id == id
  }

  /** A candidate ends as passed exactly when it passed, its returns were collected, and its incumbent was verified and
      observed together with it on enough days, or failed silently; a resource-blocked candidate stays blocked. */
  lemma {:induction false} PassedExactly(cs: seq<Candidate>, ids: seq<nat>, f: Family, i: nat)
    requires Assembled(cs, ids, f) && i < |cs|
    ensures f.statuses[i] == Passed <==> Survives(cs[i], Verify(cs)) || Silent(cs[i], Verify(cs))
    ensures f.statuses[i] == Passed ==> cs[i].status == Passed
    ensures cs[i].status == Blocked ==> f.statuses[i] == Blocked
  {
    hide Verify, AllForced, AllTrials, IncumbentTrials, IncumbentForced;
  }

  /** Which names a candidate forces: all of its own, only the one against the incumbent, or none. */
  predicate Forces(c: Candidate, v: Incumbents, name: TrialName) {
    Belongs(name, c.id) && !Survives(c, v) && (Silent(c, v) ==> name.JointDelta?)
  }

  lemma {:induction false} BelongsIsForced(c: Candidate, v: Incumbents, name: TrialName)
    ensures name in CandidateForced(c, v) <==> Forces(c, v, name)
  {
    hide Survives, Silent;
    match name
    case Bundle(_, a) => match a { case FactorOnly => case ModelOnly => case Joint => }
    case JointDelta(_) =>
    case Incumbent(_) =>
  }

  lemma {:induction false} ForcedOf(cs: seq<Candidate>, v: Incumbents, i: nat, name: TrialName)
    requires WellFormed(cs) && i < |cs| && Belongs(name, cs[i].id)
    ensures name in AllForced(cs, v) <==> Forces(cs[i], v, name)
  {
    var front, last := cs[..|cs| - 1], cs[|cs| - 1];
    BelongsIsForced(last, v, name);
    hide Survives, Silent, CandidateForced;
    if i < |cs| - 1 {
      assert cs[i].id != last.id;
      ForcedOf(front, v, i, name);
    } else {
      NotForcedEarlier(front, v, last.id, name);
    }
  }

  lemma {:induction false} NotForcedEarlier(cs: seq<Candidate>, v: Incumbents, id: nat, name: TrialName)
    requires Belongs(name, id) && forall i :: 0 <= i < |cs| ==> cs[i].id != id
    ensures name !in AllForced(cs, v)
  {
    if cs != [] {
      NotForcedEarlier(cs[..|cs| - 1], v, id, name);
      BelongsIsForced(cs[|cs| - 1], v, name);
      hide Survives, Silent, CandidateForced;
    }
  }

  /** The four trials of a candidate are all free if it has passed, and all forced if it has not. */
  ghost predicate AllFreeOrForced(f: Family, c: Candidate, passed: bool) {
    forall k :: 0 <= k < |CandidateNames(c)| ==> (CandidateNames(c)[k] in f.forced <==> !passed)
  }

  /** Which of a candidate's trials the family forces. */
  lemma {:induction false} ForcedTrials(cs: seq<Candidate>, ids: seq<nat>, f: Family, i: nat, name: TrialName)
    requires WellFormed(cs) && Assembled(cs, ids, f) && i < |cs| && Belongs(name, cs[i].id)
    ensures name in f.forced <==> Forces(cs[i], Verify(cs), name)
  {
    ForcedOf(cs, Verify(cs), i, name);
    hide Verify, AllForced, AllTrials, Forces, FinalStatus;
  }

  /** Each candidate's four trials are either all free, and then it has passed, or all forced to one, and then it has
      not: this holds exactly for the candidates whose incumbent did not fail silently. */
  lemma {:induction false} AllOrNothing(cs: seq<Candidate>, ids: seq<nat>, f: Family, i: nat)
    requires WellFormed(cs) && Assembled(cs, ids, f) && i < |cs|
    ensures AllFreeOrForced(f, cs[i], f.statuses[i] == Passed) <==> !Silent(cs[i], Verify(cs))
  {
    var c, names := cs[i], CandidateNames(cs[i]);
    PassedExactly(cs, ids, f, i);
    forall k | 0 <= k < 4
      ensures names[k] in f.forced <==> Forces(c, Verify(cs), names[k])
    {
      ForcedTrials(cs, ids, f, i, names[k]);
    }
    FourForced(c, Verify(cs), f);
    hide Assembled, Verify, Survives, Silent, WellFormed;
  }

  lemma {:induction false} FourForced(c: Candidate, v: Incumbents, f: Family)
    requires forall k :: 0 <= k < 4 ==> (CandidateNames(c)[k] in f.forced <==> Forces(c, v, CandidateNames(c)[k]))
    ensures AllFreeOrForced(f, c, Survives(c, v) || Silent(c, v)) <==> !Silent(c, v)
  {
    assert Silent(c, v) ==> !Survives(c, v);
    hide Survives, Silent;
    var names := CandidateNames(c);
    assert names[3] == JointDelta(c.id);
    assert forall k :: 0 <= k < 4 ==> Belongs(names[k], c.id);
  }

  /** A silent failure splits the trials: the candidate stays passed with its ablations free, and only the trial against
      the incumbent is forced.  It needs an empty error text and no other candidate that verifies the incumbent. */
  lemma {:induction false} SilentSplits(cs: seq<Candidate>, ids: seq<nat>, f: Family, i: nat, a: Ablation)
    requires WellFormed(cs) && Assembled(cs, ids, f) && i < |cs| && Silent(cs[i], Verify(cs))
    ensures cs[i].incumbent == Err("") && f.statuses[i] == Passed
    ensures Bundle(cs[i].id, a) !in f.forced && JointDelta(cs[i].id) in f.forced
  {
    NotRejectedIsVerified(cs, i);
    PassedExactly(cs, ids, f, i);
    ForcedTrials(cs, ids, f, i, Bundle(cs[i].id, a));
    ForcedTrials(cs, ids, f, i, JointDelta(cs[i].id));
    hide Assembled, Verify, WellFormed;
  }

  /** Two candidates with different incumbents, one verified and one failing without a text. */
  lemma {:induction false} SilentFailureExists(series: Series)
    ensures
      var collected := map[FactorOnly := series, ModelOnly := series, Joint := series];
      var cs := [Candidate(0, Some(0), Passed, Ok(series), Some(collected)),
                 Candidate(1, Some(1), Passed, Err(""), Some(collected))];
      WellFormed(cs) && Verify(cs).reference.Some? && Silent(cs[1], Verify(cs))
  {
    var collected := map[FactorOnly := series, ModelOnly := series, Joint := series];
    var first := Candidate(0, Some(0), Passed, Ok(series), Some(collected));
    var second := Candidate(1, Some(1), Passed, Err(""), Some(collected));
    assert [first][..0] == [] && [first, second][..1] == [first];
    assert Verify([first]) == Incumbents(map[0 := series], Some(series), {});
    assert Verify([first, second]) == Verify([first]);
  }

  /** The incumbent of a passed candidate was verified, so its trial is free, unless it failed silently. */
  lemma {:induction false} PassedIncumbentIsFree(cs: seq<Candidate>, ids: seq<nat>, f: Family, i: nat)
    requires Assembled(cs, ids, f) && i < |cs| && f.statuses[i] == Passed && !Silent(cs[i], Verify(cs))
    ensures cs[i].baseline.Some? && Incumbent(cs[i].baseline.value) !in f.forced
  {
    PassedExactly(cs, ids, f, i);
    hide Verify, AllForced;
    NoIncumbentForced(cs, Verify(cs), Incumbent(cs[i].baseline.value));
  }

  lemma {:induction false} NoIncumbentForced(cs: seq<Candidate>, v: Incumbents, name: TrialName)
    requires name.Incumbent?
    ensures name !in AllForced(cs, v)
  {
    if cs != [] {
      NoIncumbentForced(cs[..|cs| - 1], v, name);
      hide Survives, Silent;
    }
  }

  lemma {:induction false} CandidateNameOf(cs: seq<Candidate>, k: nat)
    requires k < 4 * |cs| == |AllCandidateNames(cs)|
    ensures AllCandidateNames(cs)[k] == CandidateNames(cs[k / 4])[k % 4]
  {
    var front := cs[..|cs| - 1];
    NamesOfTrials(front, Incumbents(map[], None, {}), map[]);
    if k < 4 * |front| {
      CandidateNameOf(front, k);
    }
  }

  /** No two trials share a name, so the multiple-testing step never refuses the family. */
  lemma {:induction false} NamesAreDistinct(cs: seq<Candidate>, ids: seq<nat>, f: Family, i: nat, j: nat)
    requires WellFormed(cs) && Assembled(cs, ids, f) && i < j < |f.trials|
    ensures f.trials[i].name != f.trials[j].name
  {
    FamilyShape(cs, ids, f);
    assert f.trials[i].name == TrialNames(f.trials)[i] && f.trials[j].name == TrialNames(f.trials)[j];
    DistinctNames(cs, ids, i, j);
  }

  lemma {:induction false} DistinctNames(cs: seq<Candidate>, ids: seq<nat>, i: nat, j: nat)
    requires WellFormed(cs) && Sorted(ids) && i < j < |IncumbentNames(ids) + AllCandidateNames(cs)|
    ensures (IncumbentNames(ids) + AllCandidateNames(cs))[i] != (IncumbentNames(ids) + AllCandidateNames(cs))[j]
  {
    NamesOfTrials(cs, Incumbents(map[], None, {}), map[]);
    hide AllCandidateNames;
    var n := |ids|;
    if j >= n {
      CandidateNameOf(cs, j - n);
      if i >= n {
        CandidateNameOf(cs, i - n);
        DifferentNames(cs, i - n, j - n);
      }
    }
  }

  lemma {:induction false} DifferentNames(cs: seq<Candidate>, k: nat, l: nat)
    requires WellFormed(cs) && k < l < 4 * |cs|
    ensures CandidateNames(cs[k / 4])[k % 4] != CandidateNames(cs[l / 4])[l % 4]
  {
    assert k == 4 * (k / 4) + k % 4 && l == 4 * (l / 4) + l % 4;
    if k / 4 == l / 4 {
      FourNames(cs[k / 4], k % 4, l % 4);
    } else {
      assert cs[k / 4].id != cs[l / 4].id;
      NamesBelong(cs[k / 4], k % 4);
      NamesBelong(cs[l / 4], l % 4);
    }
  }

  lemma {:induction false} FourNames(c: Candidate, k: nat, l: nat)
    requires k < l < 4
    ensures CandidateNames(c)[k] != CandidateNames(c)[l]
  {
  }

  lemma {:induction false} NamesBelong(c: Candidate, k: nat)
    requires k < 4
    ensures Belongs(CandidateNames(c)[k], c.id)
  {
  }

  /** An incumbent's own trial is forced exactly when no candidate verified it. */
  lemma {:induction false} IncumbentForcedExactly(cs: seq<Candidate>, ids: seq<nat>, f: Family, b: nat)
    requires Assembled(cs, ids, f) && b in Baselines(cs)
    ensures Incumbent(b) in f.forced <==> b !in Verify(cs).verified
  {
    hide Verify, AllForced, Baselines;
    NoIncumbentForced(cs, Verify(cs), Incumbent(b));
    assert b in ids;
  }

  // ----- what the trials are judged by -----

  /** The returns of a verified incumbent are those of the first candidate whose verification gave any. */
  lemma {:induction false} VerifiedFrom(cs: seq<Candidate>, b: nat) returns (i: nat)
    requires b in Verify(cs).verified
    ensures i < |cs| && cs[i].baseline == Some(b) && cs[i].incumbent == Ok(Verify(cs).verified[b])
    ensures forall j :: 0 <= j < i && cs[j].baseline == Some(b) ==> cs[j].incumbent.Err?
  {
    var last := |cs| - 1;
    if b in Verify(cs[..last]).verified {
      i := VerifiedFrom(cs[..last], b);
    } else {
      i := last;
      NotVerified(cs[..last], b);
    }
  }

  lemma {:induction false} NotVerified(cs: seq<Candidate>, b: nat)
    requires b !in Verify(cs).verified
    ensures forall j :: 0 <= j < |cs| && cs[j].baseline == Some(b) ==> cs[j].incumbent.Err?
  {
    if cs != [] {
      NotVerified(cs[..|cs| - 1], b);
    }
  }

  lemma {:induction false} TrialsOf(cs: seq<Candidate>, v: Incumbents, zero: Series, i: nat)
    requires i < |cs|
    ensures |AllTrials(cs, v, zero)| == 4 * |cs|
    ensures AllTrials(cs, v, zero)[4 * i..4 * i + 4] == CandidateTrials(cs[i], v, zero)
    decreases |cs|
  {
    var front := cs[..|cs| - 1];
    hide CandidateTrials;
    FourTrials(cs[|cs| - 1], v, zero);
    if front != [] {
      TrialsOf(front, v, zero, if i < |front| then i else 0);
    }
    if i == |front| {
      assert AllTrials(cs, v, zero)[4 * i..] == CandidateTrials(cs[i], v, zero);
    }
  }

  lemma {:induction false} FourTrials(c: Candidate, v: Incumbents, zero: Series)
    ensures |CandidateTrials(c, v, zero)| == 4
  {
  }

  /** Nothing was earned on any day of the reference. */
  predicate Blank(series: Series, reference: Series) {
    series.Keys == reference.Keys && forall day :: day in series ==> series[day] == 0.0
  }

  /** On every common day, and on no other, what the candidate earned is what its incumbent earned plus the delta. */
  predicate Exceeds(delta: Series, joint: Series, incumbent: Series) {
    && delta.Keys == joint.Keys * incumbent.Keys
    && forall day :: day in delta ==> joint[day] == incumbent[day] + delta[day]
  }

  /** The series of a candidate's trial that is judged on its evidence. */
  ghost predicate OwnEvidence(c: Candidate, v: Incumbents, t: Trial) {
    && c.collected.Some?
    && match t.name
       case Bundle(_, a) => a in c.collected.value && t.series == c.collected.value[a]
       case JointDelta(_) =>
         && Joint in c.collected.value && c.baseline.Some? && c.baseline.value in v.verified
         && Exceeds(t.series, c.collected.value[Joint], v.verified[c.baseline.value])
         && |t.series.Keys| >= MIN_OBSERVATIONS
       case Incumbent(_) => false
  }

  /** The four trials of a candidate: a free ablation is judged by the candidate's own returns for it, and the free
      trial against the incumbent by what it earned on top of that, on enough days; a forced trial may have earned
      nothing. */
  lemma {:induction false} JudgedByOwnReturns(cs: seq<Candidate>, ids: seq<nat>, f: Family, i: nat, k: nat)
    requires WellFormed(cs) && Assembled(cs, ids, f) && i < |cs| && k < 4
    ensures |ids| + 4 * i + k < |f.trials|
    ensures
      var c, v, t := cs[i], Verify(cs), f.trials[|ids| + 4 * i + k];
      && t.name == CandidateNames(c)[k]
      && (t.name !in f.forced ==> OwnEvidence(c, v, t))
      && (t.name in f.forced ==> OwnEvidence(c, v, t) || Blank(t.series, v.reference.value))
  {
    var c, v := cs[i], Verify(cs);
    TrialsOf(cs, v, Zeros(v.reference.value), i);
    assert f.trials[|ids| + 4 * i + k] == CandidateTrials(c, v, Zeros(v.reference.value))[k];
    NamesBelong(c, k);
    ForcedTrials(cs, ids, f, i, CandidateNames(c)[k]);
    assert Complete(c);
    hide Assembled, Verify, WellFormed, AllTrials;
    OwnTrial(c, v, v.reference.value, k);
  }

  lemma {:induction false} OwnTrial(c: Candidate, v: Incumbents, reference: Series, k: nat)
    requires k < 4 && Complete(c)
    ensures
      var t := CandidateTrials(c, v, Zeros(reference))[k];
      && t.name == CandidateNames(c)[k]
      && (!Forces(c, v, t.name) ==> OwnEvidence(c, v, t))
      && (OwnEvidence(c, v, t) || Blank(t.series, reference))
  {
    assert Zeros(reference).Keys == reference.Keys && Blank(Zeros(reference), reference);
    if Survives(c, v) {
      var joint, incumbent := c.collected.value[Joint], v.verified[c.baseline.value];
      assert Difference(joint, incumbent).Keys == Overlap(joint, incumbent);
    }
  }

  /** What each candidate names as its incumbent. */
  function Baseline(cs: seq<Candidate>): seq<Option<nat>> {
    seq(|cs|, i requires 0 <= i < |cs| => cs[i].baseline)
  }

  /** The incumbents with a trial are exactly those that some candidate names, each once. */
  lemma {:induction false} IncumbentsWithTrial(cs: seq<Candidate>, ids: seq<nat>, f: Family, b: nat)
    requires Assembled(cs, ids, f)
    ensures Some(b) in Baseline(cs) <==> exists k :: 0 <= k < |ids| && ids[k] == b
    ensures forall k, l :: 0 <= k < l < |ids| ==> ids[k] != ids[l]
  {
    hide Verify, AllForced, AllTrials, IncumbentTrials, IncumbentForced;
    if Some(b) in Baseline(cs) {
      var i :| 0 <= i < |cs| && Baseline(cs)[i] == Some(b);
      assert b in Baselines(cs) && b in ids;
    }
    if k :| 0 <= k < |ids| && ids[k] == b {
      assert b in Baselines(cs);
      var i :| 0 <= i < |cs| && cs[i].baseline == Some(b);
      assert Baseline(cs)[i] == Some(b);
    }
  }

  /** An incumbent's trial is judged by the returns that verified it, and a forced one earns nothing. */
  lemma {:induction false} IncumbentJudgedByOwnReturns(cs: seq<Candidate>, ids: seq<nat>, f: Family, k: nat)
    requires Assembled(cs, ids, f) && k < |ids|
    ensures k < |f.trials| && f.trials[k].name == Incumbent(ids[k])
    ensures
      var v, t := Verify(cs), f.trials[k];
      if t.name in f.forced then Blank(t.series, v.reference.value)
      else ids[k] in v.verified && t.series == v.verified[ids[k]]
  {
    hide Verify, AllForced, AllTrials;
    var reference := Verify(cs).reference.value;
    assert Zeros(reference).Keys == reference.Keys && Blank(Zeros(reference), reference);
    NoIncumbentForced(cs, Verify(cs), Incumbent(ids[k]));
  }

  // ----- the adjusted p-values of the family -----

  function RawPs(f: Family, p: Trial -> real): PValues {
    seq(|f.trials|, i requires 0 <= i < |f.trials| => if f.trials[i].name in f.forced then 1.0 else p(f.trials[i]))
  }

  const MAXIMUM_ADJUSTED_P := 0.05

  /** A forced trial can never be significant, whatever the rest of the family looks like. */
  lemma {:induction false} ForcedIsNeverEligible(f: Family, p: Trial -> real, i: nat, v: real)
    requires Valid(RawPs(f, p)) && i < |f.trials| && f.trials[i].name in f.forced
    requires HolmValue(RawPs(f, p), i, v)
    ensures v == 1.0 && v > MAXIMUM_ADJUSTED_P
  {
    var ps := RawPs(f, p);
    var h :| StepDown(ps, ps[i], h) && v == Clip(h, 0.0, 1.0);
    hide StepDown;
    ForcedStaysAtOne(ps, i, h);
  }

  /** If more trials of the same family are forced and the others keep their evidence, no free trial gets a smaller
      adjusted p-value. */
  lemma {:induction false} ForcingNeverHelpsOthers(f: Family, g: Family, p: Trial -> real, q: Trial -> real, i: nat,
                                                   v: real, w: real)
    requires TrialNames(f.trials) == TrialNames(g.trials) && f.forced <= g.forced
    requires forall k :: 0 <= k < |f.trials| && k < |g.trials| && g.trials[k].name !in g.forced ==>
      p(f.trials[k]) == q(g.trials[k])
    requires Valid(RawPs(f, p)) && Valid(RawPs(g, q))
    requires i < |f.trials| && i < |g.trials| && g.trials[i].name !in g.forced
    requires HolmValue(RawPs(f, p), i, v) && HolmValue(RawPs(g, q), i, w)
    ensures v <= w
  {
    var a, b := RawPs(f, p), RawPs(g, q);
    assert |f.trials| == |TrialNames(f.trials)| == |g.trials|;
    forall k | 0 <= k < |a|
      ensures a[k] <= b[k]
    {
      assert f.trials[k].name == TrialNames(f.trials)[k] == g.trials[k].name;
    }
    assert f.trials[i].name == TrialNames(f.trials)[i] == g.trials[i].name;
    PointwiseRaise(a, b);
    var h :| StepDown(a, a[i], h) && v == Clip(h, 0.0, 1.0);
    var k :| StepDown(b, b[i], k) && w == Clip(k, 0.0, 1.0);
    hide StepDown, RaisedTo;
    StepDownRaised(a, b, i, a[i], h, k);
  }
}
