/** One preregistered family of factor hypotheses: every candidate is rejected early, fails, or is evaluated; both
    families of p-values are padded to the declared size; at most one evaluated candidate is finally accepted.
 */
module HypothesisFamilies {
  import opened Values
  import opened RankedFamilies
  import opened Multiplicity

  datatype Evaluation = Evaluation(rankP: real, returnP: real, deltaRankIC: real)

  /** `id` stands for the position of the candidate's identifier in string order; a missing `evaluation` means that
      evaluating the candidate raised. */
  datatype Candidate = Candidate(id: int, horizon: int, preflightRejected: bool, generationFailed: bool,
                                 evaluation: Option<Evaluation>)

  /** A declared count of zero means "not declared". */
  datatype Manifest = Manifest(candidates: seq<Candidate>, declaredCount: int,
                               priorRank: seq<real>, priorReturn: seq<real>)

  datatype Attempt = Attempt(id: int, evaluation: Evaluation)

  datatype Status = Rejected | Failed | Eligible | Accepted

  datatype Trial = Trial(id: int, status: Status)

  datatype FamilyError = CandidatesOmitted | MixedHorizons | PriorsExceedLedger | InvalidPriors | InvalidFamily

  datatype Outcome = Outcome(attempts: seq<Attempt>, rankFamily: PValues, returnFamily: PValues,
                             rankQ: seq<real>, returnQ: seq<real>, trials: seq<Trial>, selected: Option<int>)

  function HypothesisCount(m: Manifest): int {
    if m.declaredCount == 0 then |m.candidates| else m.declaredCount
  }

  // ----- classification -----

  predicate Evaluated(c: Candidate) {
    !c.preflightRejected && !c.generationFailed && c.evaluation.Some?
  }

  function Attempts(cs: seq<Candidate>): (attempts: seq<Attempt>)
    ensures |attempts| <= |cs|
  {
    if cs == [] then []
    else
      var c := cs[|cs| - 1];
      Attempts(cs[..|cs| - 1]) + if Evaluated(c) then [Attempt(c.id, c.evaluation.value)] else []
  }

  function EarlyTrials(cs: seq<Candidate>): seq<Trial> {
    if cs == [] then []
    else
      var c := cs[|cs| - 1];
      EarlyTrials(cs[..|cs| - 1])
      + if Evaluated(c) then [] else [Trial(c.id, if c.preflightRejected then Rejected else Failed)]
  }

  /** No candidate is lost and none is tried twice. */
  lemma {:induction false} EveryCandidateIsTried(cs: seq<Candidate>)
    ensures |Attempts(cs)| + |EarlyTrials(cs)| == |cs|
    ensures multiset(IdsOf(Attempts(cs))) + multiset(TrialIds(EarlyTrials(cs))) == multiset(CandidateIds(cs))
  {
    if cs != [] {
      var front, c := cs[..|cs| - 1], cs[|cs| - 1];
      EveryCandidateIsTried(front);
      assert CandidateIds(cs) == CandidateIds(front) + [c.id];
      if Evaluated(c) {
        assert IdsOf(Attempts(cs)) == IdsOf(Attempts(front)) + [c.id];
        assert EarlyTrials(cs) == EarlyTrials(front);
      } else {
        assert Attempts(cs) == Attempts(front);
        assert TrialIds(EarlyTrials(cs)) == TrialIds(EarlyTrials(front)) + [c.id];
      }
    }
  }

  function IdsOf(attempts: seq<Attempt>): seq<int> {
    seq(|attempts|, i requires 0 <= i < |attempts| => attempts[i].id)
  }

  function TrialIds(trials: seq<Trial>): seq<int> {
    seq(|trials|, i requires 0 <= i < |trials| => trials[i].id)
  }

  function CandidateIds(cs: seq<Candidate>): seq<int> {
    seq(|cs|, i requires 0 <= i < |cs| => cs[i].id)
  }

  method Classify(cs: seq<Candidate>) returns (attempts: seq<Attempt>, trials: seq<Trial>)
    ensures attempts == Attempts(cs) && trials == EarlyTrials(cs)
  {
    attempts, trials := [], [];
    for k := 0 to |cs|
      invariant attempts == Attempts(cs[..k]) && trials == EarlyTrials(cs[..k])
    {
      var c := cs[k];
      assert cs[..k + 1][..k] == cs[..k];
      if c.preflightRejected {
        trials := trials + [Trial(c.id, Rejected)];
        continue;
      }
      if c.generationFailed {
        trials := trials + [Trial(c.id, Failed)];
        continue;
      }
      match c.evaluation
      case Some(e) => attempts := attempts + [Attempt(c.id, e)];
      case None => trials := trials + [Trial(c.id, Failed)];
    }
    assert cs[..|cs|] == cs;
  }

  // ----- the two padded families -----

  function RankPs(attempts: seq<Attempt>): PValues {
    seq(|attempts|, i requires 0 <= i < |attempts| => attempts[i].evaluation.rankP)
  }

  function ReturnPs(attempts: seq<Attempt>): PValues {
    seq(|attempts|, i requires 0 <= i < |attempts| => attempts[i].evaluation.returnP)
  }

  /** Evaluated hypotheses, one per failed candidate, and the earlier hypotheses of the ledger, known or not. */
  function Family(ps: PValues, failed: nat, prior: PValues, priorCount: nat): (family: PValues)
    requires |prior| <= priorCount
    ensures |family| == |ps| + failed + priorCount
  {
    Padded(ps, failed, prior + Ones(priorCount - |prior|))
  }

  /** What makes a run fail, in the order in which it is noticed. */
  function Failure(m: Manifest): Option<FamilyError> {
    var attempts := Attempts(m.candidates);
    var n := |m.candidates|;
    var priorCount := HypothesisCount(m) - n;
    if priorCount < 0 then Some(CandidatesOmitted)
    else if n == 0 || exists i :: 0 <= i < n && m.candidates[i].horizon != m.candidates[0].horizon
    then Some(MixedHorizons)
    else if |m.priorRank| > priorCount || |m.priorReturn| > priorCount then Some(PriorsExceedLedger)
    else if !Valid(m.priorRank) || !Valid(m.priorReturn) then Some(InvalidPriors)
    else if !Valid(RankPs(attempts)) || !Valid(ReturnPs(attempts)) then Some(InvalidFamily)
    else None
  }

  lemma {:induction false} FamilyIsValid(ps: PValues, failed: nat, prior: PValues, priorCount: nat)
    requires |prior| <= priorCount && Valid(prior)
    ensures Valid(Family(ps, failed, prior, priorCount)) <==> Valid(ps)
  {
    var family := Family(ps, failed, prior, priorCount);
    if Valid(family) {
      forall i | 0 <= i < |ps|
        ensures 0.0 <= ps[i] <= 1.0
      {
        assert ps[i] == family[i];
      }
    }
  }

  /** A hypothesis that fails instead of yielding the p-value `x` never lowers the q-value of another one. */
  lemma {:induction false} FailingNeverHelps(a: PValues, x: real, b: PValues, failed: nat, prior: PValues,
                                             priorCount: nat, i: nat, q: real, r: real)
    requires |prior| <= priorCount && i < |a + b|
    requires Valid(Family(a + [x] + b, failed, prior, priorCount))
    requires StepUp(Family(a + [x] + b, failed, prior, priorCount), (a + b)[i], q)
    requires StepUp(Family(a + b, failed + 1, prior, priorCount), (a + b)[i], r)
    ensures q <= r
  {
    var rest := prior + Ones(priorCount - |prior|);
    var p := Family(a + [x] + b, failed, prior, priorCount);
    var g := Family(a + b, failed + 1, prior, priorCount);
    assert x == p[|a|];
    forall t
      ensures AtMost(g, t) <= AtMost(p, t)
    {
      FailureCounts(a, x, b, failed, rest, t);
    }
    var k := if i < |a| then i else i + 1;
    assert p[k] == (a + b)[i];
    FailedIsValid(a, x, b, failed, prior, priorCount);
    hide Family, Count, StepUp;
    StepUpDominated(p, g, k, (a + b)[i], q, r);
  }

  lemma {:induction false} FailedIsValid(a: PValues, x: real, b: PValues, failed: nat, prior: PValues, priorCount: nat)
    requires |prior| <= priorCount && Valid(Family(a + [x] + b, failed, prior, priorCount))
    ensures Valid(Family(a + b, failed + 1, prior, priorCount))
  {
    var p := Family(a + [x] + b, failed, prior, priorCount);
    var g := Family(a + b, failed + 1, prior, priorCount);
    forall i | 0 <= i < |g|
      ensures 0.0 <= g[i] <= 1.0
    {
      if i < |a| || i > |a + b| {
        assert g[i] == p[i];
      } else if i < |a + b| {
        assert g[i] == p[i + 1];
      }
    }
  }

  lemma {:induction false} FailureCounts(a: PValues, x: real, b: PValues, failed: nat, rest: PValues, t: real)
    requires x <= 1.0
    ensures AtMost(Padded(a + b, failed + 1, rest), t) <= AtMost(Padded(a + [x] + b, failed, rest), t)
  {
    PaddedCount(a + b, failed + 1, rest, t, false);
    PaddedCount(a + [x] + b, failed, rest, t, false);
    CountConcat(a + [x] + b, rest, t, false);
    CountConcat(a + [x], b, t, false);
    CountConcat(a, [x], t, false);
    CountConcat(a + b, rest, t, false);
    CountConcat(a, b, t, false);
    assert Count([x], t, false) == if x <= t then 1 else 0;
  }

  /** Nor does dropping the failed hypotheses from the family ever raise a surviving q-value. */
  lemma {:induction false} DroppingNeverRaises(ps: PValues, failed: nat, prior: PValues, priorCount: nat, i: nat,
                                               q: real, r: real)
    requires |prior| <= priorCount && Valid(Family(ps, failed, prior, priorCount)) && i < |ps|
    requires StepUp(Family(ps, 0, prior, priorCount), ps[i], q)
    requires StepUp(Family(ps, failed, prior, priorCount), ps[i], r)
    ensures q <= r
  {
    var rest := prior + Ones(priorCount - |prior|);
    assert Family(ps, 0, prior, priorCount) == ps + rest;
    var padded := Family(ps, failed, prior, priorCount);
    forall k | 0 <= k < |ps + rest|
      ensures 0.0 <= (ps + rest)[k] <= 1.0
    {
      assert (ps + rest)[k] == padded[if k < |ps| then k else k + failed];
    }
    assert padded[i] == ps[i];
    StepUpPadding(ps, failed, rest, ps[i], q, r);
  }

  // ----- choosing one increment -----

  /** Eligible candidates are ranked by their worse q-value, then by improvement, then by identifier. */
  predicate Before(a: Attempt, qa: real, b: Attempt, qb: real) {
    || qa < qb
    || (qa == qb && a.evaluation.deltaRankIC > b.evaluation.deltaRankIC)
    || (qa == qb && a.evaluation.deltaRankIC == b.evaluation.deltaRankIC && a.id < b.id)
  }

  function WorseQ(rankQ: seq<real>, returnQ: seq<real>, i: nat): real
    requires i < |rankQ| && i < |returnQ|
  {
    MaxReal(rankQ[i], returnQ[i])
  }

  /** The status each trial ends with: `selected` is the identifier accepted, if any. */
  function Final(trial: Trial, selected: Option<int>): Trial {
    if trial.status != Eligible then trial
    else if selected == Some(trial.id) then trial.(status := Accepted)
    else trial.(status := Rejected)
  }

  function Finals(trials: seq<Trial>, selected: Option<int>): seq<Trial> {
    seq(|trials|, i requires 0 <= i < |trials| => Final(trials[i], selected))
  }

  /** The trial of an evaluated candidate, before one of them is selected. */
  function Judged(attempts: seq<Attempt>, rankQ: seq<real>, returnQ: seq<real>,
                  admits: (Attempt, real, real) -> bool): seq<Trial>
    requires |rankQ| == |returnQ| == |attempts|
  {
    seq(|attempts|, i requires 0 <= i < |attempts| =>
      Trial(attempts[i].id, if admits(attempts[i], rankQ[i], returnQ[i]) then Eligible else Rejected))
  }

  ghost predicate IsBest(attempts: seq<Attempt>, rankQ: seq<real>, returnQ: seq<real>,
                         admits: (Attempt, real, real) -> bool, best: nat)
    requires |rankQ| == |returnQ| == |attempts|
  {
    && best < |attempts| && admits(attempts[best], rankQ[best], returnQ[best])
    && forall i :: 0 <= i < |attempts| && admits(attempts[i], rankQ[i], returnQ[i]) ==>
         !Before(attempts[i], WorseQ(rankQ, returnQ, i), attempts[best], WorseQ(rankQ, returnQ, best))
  }

  /** Nobody is selected exactly when nobody is admitted; otherwise the best admitted candidate is. */
  ghost predicate SelectsBest(attempts: seq<Attempt>, rankQ: seq<real>, returnQ: seq<real>,
                              admits: (Attempt, real, real) -> bool, selected: Option<int>)
    requires |rankQ| == |returnQ| == |attempts|
  {
    match selected
    case None => forall i :: 0 <= i < |attempts| ==> !admits(attempts[i], rankQ[i], returnQ[i])
    case Some(id) =>
      exists best :: 0 <= best < |attempts| && attempts[best].id == id && IsBest(attempts, rankQ, returnQ, admits, best)
  }

  method Select(attempts: seq<Attempt>, rankQ: seq<real>, returnQ: seq<real>, admits: (Attempt, real, real) -> bool)
    returns (judged: seq<Trial>, selected: Option<int>)
    requires |rankQ| == |returnQ| == |attempts|
    ensures judged == Judged(attempts, rankQ, returnQ, admits)
    ensures SelectsBest(attempts, rankQ, returnQ, admits, selected)
  {
    judged := [];
    var best: Option<nat> := None;
    for i := 0 to |attempts|
      invariant |judged| == i && judged == Judged(attempts, rankQ, returnQ, admits)[..i]
      invariant best.None? ==> forall j :: 0 <= j < i ==> !admits(attempts[j], rankQ[j], returnQ[j])
      invariant best.Some? ==>
        && best.value < i && admits(attempts[best.value], rankQ[best.value], returnQ[best.value])
        && forall j :: 0 <= j < i && admits(attempts[j], rankQ[j], returnQ[j]) ==>
             !Before(attempts[j], WorseQ(rankQ, returnQ, j), attempts[best.value], WorseQ(rankQ, returnQ, best.value))
    {
      if admits(attempts[i], rankQ[i], returnQ[i]) {
        judged := judged + [Trial(attempts[i].id, Eligible)];
        if best.None? || Before(attempts[i], WorseQ(rankQ, returnQ, i),
                                attempts[best.value], WorseQ(rankQ, returnQ, best.value)) {
          best := Some(i);
        }
      } else {
        judged := judged + [Trial(attempts[i].id, Rejected)];
      }
    }
    selected := if best.Some? then Some(attempts[best.value].id) else None;
    if best.Some? {
      assert IsBest(attempts, rankQ, returnQ, admits, best.value);
    }
  }

  // ----- the whole evaluation -----

  ghost predicate QValues(family: PValues, ps: PValues, qs: seq<real>) {
    |qs| == |ps| && forall i :: 0 <= i < |ps| ==> StepUp(family, ps[i], qs[i])
  }

  ghost predicate Concluded(m: Manifest, admits: (Attempt, real, real) -> bool, o: Outcome)
    requires Failure(m).None?
  {
    var attempts := Attempts(m.candidates);
    var failed := |m.candidates| - |attempts|;
    var priorCount := HypothesisCount(m) - |m.candidates|;
    && o.attempts == attempts
    && o.rankFamily == Family(RankPs(attempts), failed, m.priorRank, priorCount)
    && o.returnFamily == Family(ReturnPs(attempts), failed, m.priorReturn, priorCount)
    && QValues(o.rankFamily, RankPs(attempts), o.rankQ)
    && QValues(o.returnFamily, ReturnPs(attempts), o.returnQ)
    && SelectsBest(attempts, o.rankQ, o.returnQ, admits, o.selected)
    && o.trials == Finals(EarlyTrials(m.candidates) + Judged(attempts, o.rankQ, o.returnQ, admits), o.selected)
  }

  /** q-values of the evaluated hypotheses, which come first in the family. */
  method FamilyQValues(ps: PValues, failed: nat, prior: PValues, priorCount: nat)
    returns (qs: Result<seq<real>, FamilyError>)
    requires |prior| <= priorCount && Valid(prior)
    ensures qs.Err? ==> qs.error == InvalidFamily && !Valid(ps)
    ensures qs.Ok? ==> Valid(ps) && |qs.value| == |ps| && QValues(Family(ps, failed, prior, priorCount), ps, qs.value)
  {
    var family := Family(ps, failed, prior, priorCount);
    FamilyIsValid(ps, failed, prior, priorCount);
    var adjusted := BenjaminiHochberg(family);
    hide StepUp, Valid;
    match adjusted
    case Err(_) => qs := Err(InvalidFamily);
    case Ok(q) =>
      assert forall i :: 0 <= i < |ps| ==> ps[i] == family[i];
      qs := Ok(q[..|ps|]);
  }

  method EvaluateFamily(m: Manifest, admits: (Attempt, real, real) -> bool) returns (r: Result<Outcome, FamilyError>)
    ensures r.Err? ==> Failure(m) == Some(r.error)
    ensures r.Ok? ==> Failure(m) == None && Concluded(m, admits, r.value)
  {
    hide Valid, QValues, SelectsBest;
    var cs := m.candidates;
    var count := if m.declaredCount == 0 then |cs| else m.declaredCount;
    if count < |cs| {
      return Err(CandidatesOmitted);
    }
    if |cs| == 0 || exists i :: 0 <= i < |cs| && cs[i].horizon != cs[0].horizon {
      return Err(MixedHorizons);
    }
    var attempts, trials := Classify(cs);
    var priorCount := count - |cs|;
    if |m.priorRank| > priorCount || |m.priorReturn| > priorCount {
      return Err(PriorsExceedLedger);
    }
    if !Valid(m.priorRank) || !Valid(m.priorReturn) {
      return Err(InvalidPriors);
    }
    var failed := |cs| - |attempts|;
    var rankQ := FamilyQValues(RankPs(attempts), failed, m.priorRank, priorCount);
    if rankQ.Err? {
      return Err(rankQ.error);
    }
    var returnQ := FamilyQValues(ReturnPs(attempts), failed, m.priorReturn, priorCount);
    if returnQ.Err? {
      return Err(returnQ.error);
    }
    var judged, selected := Select(attempts, rankQ.value, returnQ.value, admits);
    r := Ok(Outcome(attempts, Family(RankPs(attempts), failed, m.priorRank, priorCount),
                    Family(ReturnPs(attempts), failed, m.priorReturn, priorCount),
                    rankQ.value, returnQ.value, Finals(trials + judged, selected), selected));
  }

  /** Whatever fails, both families hold exactly the declared number of hypotheses, and every candidate has one
      trial. */
  lemma {:induction false} FamiliesKeepTheirSize(m: Manifest, admits: (Attempt, real, real) -> bool, o: Outcome)
    requires Failure(m).None? && Concluded(m, admits, o)
    ensures |o.rankFamily| == |o.returnFamily| == HypothesisCount(m)
    ensures multiset(TrialIds(o.trials)) == multiset(CandidateIds(m.candidates))
  {
    hide StepUp, SelectsBest, Family, EarlyTrials, Attempts;
    EveryCandidateIsTried(m.candidates);
    FinalIds(EarlyTrials(m.candidates), o.attempts, o.rankQ, o.returnQ, admits, o.selected);
  }

  lemma {:induction false} FinalIds(early: seq<Trial>, attempts: seq<Attempt>, rankQ: seq<real>, returnQ: seq<real>,
                                    admits: (Attempt, real, real) -> bool, selected: Option<int>)
    requires |rankQ| == |returnQ| == |attempts|
    ensures multiset(TrialIds(Finals(early + Judged(attempts, rankQ, returnQ, admits), selected)))
      == multiset(IdsOf(attempts)) + multiset(TrialIds(early))
  {
    var judged := Judged(attempts, rankQ, returnQ, admits);
    assert TrialIds(Finals(early + judged, selected)) == TrialIds(early) + TrialIds(judged);
    assert TrialIds(judged) == IdsOf(attempts);
  }

  ghost predicate Distinct(ids: seq<int>) {
    forall i, j :: 0 <= i < j < |ids| ==> ids[i] != ids[j]
  }

  /** When candidates have distinct identifiers, exactly one trial is accepted if any candidate is admitted, and none
      otherwise; no trial is left undecided. */
  lemma {:induction false} AtMostOneAccepted(m: Manifest, admits: (Attempt, real, real) -> bool, o: Outcome, i: nat,
                                             j: nat)
    requires Failure(m).None? && Concluded(m, admits, o) && Distinct(CandidateIds(m.candidates))
    requires i < |o.trials| && j < |o.trials|
    ensures o.trials[i].status != Eligible
    ensures o.trials[i].status == Accepted && o.trials[j].status == Accepted ==> i == j
    ensures o.trials[i].status == Accepted ==> o.selected == Some(o.trials[i].id)
  {
    EarlyTrialsAreDecided(m.candidates);
    if i != j && o.trials[i].status == o.trials[j].status == Accepted {
      FamiliesKeepTheirSize(m, admits, o);
      Repeated(TrialIds(o.trials), i, j);
      Unrepeated(CandidateIds(m.candidates), o.trials[i].id);
      assert false;
    }
  }

  lemma {:induction false} EarlyTrialsAreDecided(cs: seq<Candidate>)
    ensures forall i :: 0 <= i < |EarlyTrials(cs)| ==> EarlyTrials(cs)[i].status in {Rejected, Failed}
  {
    if cs != [] {
      EarlyTrialsAreDecided(cs[..|cs| - 1]);
    }
  }

  lemma {:induction false} Repeated(ids: seq<int>, i: nat, j: nat)
    requires i < |ids| && j < |ids| && i != j && ids[i] == ids[j]
    ensures multiset(ids)[ids[i]] >= 2
  {
    var lo, hi := if i < j then i else j, if i < j then j else i;
    assert ids == ids[..hi] + ids[hi..];
    assert ids[lo] in ids[..hi] && ids[hi] == ids[hi..][0];
    assert ids[hi] in ids[hi..];
  }

  lemma {:induction false} Unrepeated(ids: seq<int>, x: int)
    requires Distinct(ids)
    ensures multiset(ids)[x] <= 1
  {
    if ids != [] {
      var front := ids[..|ids| - 1];
      assert ids == front + [ids[|ids| - 1]];
      Unrepeated(front, x);
    }
  }

  lemma {:induction false} SelectedIsAccepted(m: Manifest, admits: (Attempt, real, real) -> bool, o: Outcome)
    returns (i: nat)
    requires Failure(m).None? && Concluded(m, admits, o) && o.selected.Some?
    ensures i < |o.trials| && o.trials[i].status == Accepted
  {
    hide StepUp, IsBest, EarlyTrials, Attempts, Family, Failure;
    i := SelectedTrial(EarlyTrials(m.candidates), o.attempts, o.rankQ, o.returnQ, admits, o.selected);
  }

  lemma {:induction false} SelectedTrial(early: seq<Trial>, attempts: seq<Attempt>, rankQ: seq<real>,
                                         returnQ: seq<real>, admits: (Attempt, real, real) -> bool,
                                         selected: Option<int>) returns (i: nat)
    requires |rankQ| == |returnQ| == |attempts|
    requires SelectsBest(attempts, rankQ, returnQ, admits, selected) && selected.Some?
    ensures i < |early + Judged(attempts, rankQ, returnQ, admits)|
    ensures Finals(early + Judged(attempts, rankQ, returnQ, admits), selected)[i].status == Accepted
  {
    hide Before;
    var best :| 0 <= best < |attempts| && attempts[best].id == selected.value
      && IsBest(attempts, rankQ, returnQ, admits, best);
    i := |early| + best;
    var trials := early + Judged(attempts, rankQ, returnQ, admits);
    assert trials[i] == Trial(attempts[best].id, Eligible);
  }

  /** The selected candidate is admitted, no admitted one has a smaller worse q-value, none of those with the same a
      larger improvement, and none of those with the same of both an earlier identifier. */
  lemma {:induction false} SelectedIsBest(m: Manifest, admits: (Attempt, real, real) -> bool, o: Outcome)
    returns (best: nat)
    requires Failure(m).None? && Concluded(m, admits, o) && o.selected.Some?
    ensures best < |o.attempts| == |o.rankQ| == |o.returnQ| && o.attempts[best].id == o.selected.value
    ensures admits(o.attempts[best], o.rankQ[best], o.returnQ[best])
    ensures forall i :: 0 <= i < |o.attempts| && admits(o.attempts[i], o.rankQ[i], o.returnQ[i]) ==>
      var q, p := MaxReal(o.rankQ[best], o.returnQ[best]), MaxReal(o.rankQ[i], o.returnQ[i]);
      var a, b := o.attempts[best], o.attempts[i];
      && q <= p
      && (q == p ==> a.evaluation.deltaRankIC >= b.evaluation.deltaRankIC)
      && (q == p && a.evaluation.deltaRankIC == b.evaluation.deltaRankIC ==> a.id <= b.id)
  {
    hide StepUp, EarlyTrials, Attempts, Family, Failure;
    best :| best < |o.attempts| && o.attempts[best].id == o.selected.value
      && IsBest(o.attempts, o.rankQ, o.returnQ, admits, best);
  }

  // ----- what becomes of one candidate -----

  /** The place of an evaluated candidate among the attempts. */
  lemma {:induction false} AttemptOf(cs: seq<Candidate>, k: nat) returns (i: nat)
    requires k < |cs| && Evaluated(cs[k])
    ensures i < |Attempts(cs)| && Attempts(cs)[i] == Attempt(cs[k].id, cs[k].evaluation.value)
  {
    var last := |cs| - 1;
    if k == last {
      i := |Attempts(cs[..last])|;
    } else {
      i := AttemptOf(cs[..last], k);
    }
  }

  lemma {:induction false} EarlyTrialOf(cs: seq<Candidate>, k: nat) returns (i: nat)
    requires k < |cs| && !Evaluated(cs[k])
    ensures i < |EarlyTrials(cs)|
    ensures EarlyTrials(cs)[i] == Trial(cs[k].id, if cs[k].preflightRejected then Rejected else Failed)
  {
    var last := |cs| - 1;
    if k == last {
      i := |EarlyTrials(cs[..last])|;
    } else {
      i := EarlyTrialOf(cs[..last], k);
    }
  }

  /** Behind the evaluated hypotheses come the failed ones with a p-value of one, the earlier ones with theirs, and the
      unknown earlier ones with one. */
  lemma {:induction false} FamilyEntries(ps: PValues, failed: nat, prior: PValues, priorCount: nat, i: nat)
    requires |prior| <= priorCount && i < |Family(ps, failed, prior, priorCount)|
    ensures Family(ps, failed, prior, priorCount)[i]
      == if i < |ps| then ps[i]
         else if |ps| + failed <= i < |ps| + failed + |prior| then prior[i - |ps| - failed] else 1.0
  {
  }

  lemma {:induction false} FinalOfJudged(early: seq<Trial>, attempts: seq<Attempt>, rankQ: seq<real>,
                                         returnQ: seq<real>, admits: (Attempt, real, real) -> bool,
                                         selected: Option<int>, i: nat)
    requires |rankQ| == |returnQ| == |attempts| && i < |attempts|
    ensures
      var trials, a := Finals(early + Judged(attempts, rankQ, returnQ, admits), selected), attempts[i];
      && |early| + i < |trials|
      && trials[|early| + i] == Trial(a.id, if selected == Some(a.id) && admits(a, rankQ[i], returnQ[i])
                                            then Accepted else Rejected)
  {
  }

  /** An evaluated candidate enters each family with its own p-value for it, and is admitted on its own q-values. */
  lemma {:induction false} EvaluatedOnOwnValues(m: Manifest, admits: (Attempt, real, real) -> bool, o: Outcome, k: nat)
    returns (i: nat, t: nat)
    requires Failure(m).None? && Concluded(m, admits, o) && k < |m.candidates| && Evaluated(m.candidates[k])
    ensures i < |o.attempts| == |o.rankQ| == |o.returnQ| && t < |o.trials|
    ensures
      var c, e := m.candidates[k], m.candidates[k].evaluation.value;
      && o.rankFamily[i] == e.rankP && StepUp(o.rankFamily, e.rankP, o.rankQ[i])
      && o.returnFamily[i] == e.returnP && StepUp(o.returnFamily, e.returnP, o.returnQ[i])
      && o.trials[t] == Trial(c.id, if o.selected == Some(c.id) && admits(Attempt(c.id, e), o.rankQ[i], o.returnQ[i])
                                    then Accepted else Rejected)
  {
    i := AttemptOf(m.candidates, k);
    t := |EarlyTrials(m.candidates)| + i;
    hide Attempts, EarlyTrials, SelectsBest, StepUp, Finals, Judged, Evaluated, Family;
    FinalOfJudged(EarlyTrials(m.candidates), o.attempts, o.rankQ, o.returnQ, admits, o.selected, i);
    var failed, priorCount := |m.candidates| - |o.attempts|, HypothesisCount(m) - |m.candidates|;
    FamilyEntries(RankPs(o.attempts), failed, m.priorRank, priorCount, i);
    FamilyEntries(ReturnPs(o.attempts), failed, m.priorReturn, priorCount, i);
  }

  /** A candidate that is turned down early is rejected, and every other one that is not evaluated fails. */
  lemma {:induction false} EarlyOnesEnd(m: Manifest, admits: (Attempt, real, real) -> bool, o: Outcome, k: nat)
    returns (t: nat)
    requires Failure(m).None? && Concluded(m, admits, o) && k < |m.candidates| && !Evaluated(m.candidates[k])
    ensures t < |o.trials|
    ensures o.trials[t] == Trial(m.candidates[k].id, if m.candidates[k].preflightRejected then Rejected else Failed)
  {
    t := EarlyTrialOf(m.candidates, k);
    hide Attempts, EarlyTrials, SelectsBest, Failure, StepUp;
  }
}
