/** The launcher's arm policy: both fin_quant arms get one attempt before the official bandit decides alone. */
module ArmLauncher {
  import opened Values
  import opened FinQuantTrace

  datatype Source = CoveragePolicy | OfficialBandit

  /** The first arm, in the fixed order factor, model, that was never attempted. */
  function NextMissingArm(attempted: set<string>): (arm: Option<string>)
    ensures arm.None? <==> "factor" in attempted && "model" in attempted
    ensures arm == Some("factor") <==> "factor" !in attempted
    ensures arm == Some("model") <==> "factor" in attempted && "model" !in attempted
  {
    if "factor" !in attempted then Some("factor") else if "model" !in attempted then Some("model") else None
  }

  predicate IsArm(arm: string) {
    arm == "factor" || arm == "model"
  }

  /** The controller as patched by the launcher; `recorded` and `draws` log the calls that reach the official one. */
  class Controller {
    var attempted: set<string>
    var lastActionSource: Option<Source>
    ghost var recorded: seq<string>
    ghost var draws: seq<string>

    constructor ()
      ensures attempted == {} && lastActionSource == None && recorded == [] && draws == []
    {
      attempted, lastActionSource, recorded, draws := {}, None, [], [];
    }

    method Record(arm: string) returns (ok: bool)
      modifies this
      ensures ok <==> IsArm(arm)
      ensures attempted == old(attempted) + (if ok then {arm} else {})
      ensures recorded == old(recorded) + (if ok then [arm] else [])
      ensures draws == old(draws) && lastActionSource == old(lastActionSource)
    {
      if !IsArm(arm) {
        return false;
      }
      attempted := attempted + {arm};
      recorded := recorded + [arm];
      ok := true;
    }

    /** `official` is the draw of the official controller, which happens on every call. */
    method Decide(official: string) returns (action: Option<string>)
      modifies this
      ensures draws == old(draws) + [official]
      ensures attempted == old(attempted) && recorded == old(recorded)
      ensures action.None? <==> !IsArm(official)
      ensures action.Some? ==>
        && (lastActionSource == Some(OfficialBandit) <==> "factor" in attempted && "model" in attempted)
        && (lastActionSource == Some(OfficialBandit) ==> action.value == official)
        && (lastActionSource != Some(OfficialBandit) ==>
              && lastActionSource == Some(CoveragePolicy) && action.value !in attempted
              && (action.value == "factor" || (action.value == "model" && "factor" in attempted)))
    {
      draws := draws + [official];
      if !IsArm(official) {
        return None;
      }
      var forced := NextMissingArm(attempted);
      lastActionSource := Some(if forced.Some? then CoveragePolicy else OfficialBandit);
      action := Some(if forced.Some? then forced.value else official);
    }
  }

  // ----- a whole run -----

  /** A hypothesis as the language model proposes it; `action` is the arm it echoes. */
  datatype Hypothesis = Hypothesis(action: string, text: int)

  /** The response for the selected arm, which replaces the echoed one; a lost selection is refused. */
  function ConvertResponse(selected: string, response: Hypothesis): Option<Hypothesis> {
    if IsArm(selected) then Some(response.(action := selected)) else None
  }

  /** The arm of an iteration: factor, then model, then the official draws. */
  function ArmAt(official: seq<string>, k: nat): string
    requires k <= |official|
  {
    if k == 0 then "factor" else if k == 1 then "model" else official[k - 1]
  }

  /** The hypotheses a run is meant to hold: the texts of the language model under the arms of the controller. */
  function Selected(official: seq<string>, responses: seq<Hypothesis>): seq<Hypothesis>
    requires |responses| == |official| + 1
  {
    seq(|responses|, k requires 0 <= k < |responses| => Hypothesis(ArmAt(official, k), responses[k].text))
  }

  function Actions(hypotheses: seq<Hypothesis>): seq<string> {
    seq(|hypotheses|, k requires 0 <= k < |hypotheses| => hypotheses[k].action)
  }

  /** A run after some iterations: the hypotheses so far, the arms tried before the last of them, and the logs. */
  ghost predicate SoFar(official: seq<string>, responses: seq<Hypothesis>, hypotheses: seq<Hypothesis>,
                        attempted: set<string>, draws: seq<string>, recorded: seq<string>)
  {
    var n := |hypotheses| - 1;
    && 0 <= n <= |official| && |responses| == |official| + 1
    && hypotheses == Selected(official, responses)[..n + 1]
    && (forall k :: 0 <= k < n ==> IsArm(official[k]))
    && (forall k :: 0 <= k <= n ==> IsArm(hypotheses[k].action))
    && draws == official[..n] && recorded == Actions(hypotheses)[..n]
    && (n == 0 ==> attempted == {}) && (n == 1 ==> attempted == {"factor"})
    && (n >= 2 ==> "factor" in attempted && "model" in attempted)
  }

  lemma {:induction false} FirstHypothesis(official: seq<string>, responses: seq<Hypothesis>)
    requires |responses| == |official| + 1
    ensures SoFar(official, responses, [Hypothesis("factor", responses[0].text)], {}, [], [])
  {
  }

  /** What `Decide` may return after the arms in `attempted`. */
  predicate Decided(attempted: set<string>, draw: string, arm: string) {
    if "factor" in attempted && "model" in attempted then arm == draw
    else arm !in attempted && (arm == "factor" || (arm == "model" && "factor" in attempted))
  }

  lemma {:induction false} NextHypothesis(
      official: seq<string>, responses: seq<Hypothesis>, hypotheses: seq<Hypothesis>, attempted: set<string>,
      draws: seq<string>, recorded: seq<string>, arm: string)
    requires SoFar(official, responses, hypotheses, attempted, draws, recorded)
    requires |hypotheses| <= |official| && IsArm(official[|hypotheses| - 1])
    requires Decided(attempted + {hypotheses[|hypotheses| - 1].action}, official[|hypotheses| - 1], arm)
    ensures
      var n := |hypotheses| - 1;
      SoFar(official, responses, hypotheses + [Hypothesis(arm, responses[n + 1].text)],
            attempted + {hypotheses[n].action}, draws + [official[n]], recorded + [hypotheses[n].action])
  {
    var n, next := |hypotheses| - 1, hypotheses + [Hypothesis(arm, responses[|hypotheses|].text)];
    SelectedNext(official, responses, n);
    assert arm == ArmAt(official, n + 1) by {
      hide Selected, Actions;
    }
    ActionsNext(hypotheses, next);
    hide Selected, Actions, ArmAt, Decided;
  }

  lemma {:induction false} SelectedNext(official: seq<string>, responses: seq<Hypothesis>, n: nat)
    requires |responses| == |official| + 1 && n < |official|
    ensures |Selected(official, responses)| == |responses|
    ensures Selected(official, responses)[n].action == ArmAt(official, n)
    ensures Selected(official, responses)[..n + 2]
         == Selected(official, responses)[..n + 1] + [Hypothesis(ArmAt(official, n + 1), responses[n + 1].text)]
  {
    hide ArmAt;
  }

  lemma {:induction false} ActionsNext(hypotheses: seq<Hypothesis>, next: seq<Hypothesis>)
    requires 0 < |hypotheses| < |next| && next[..|hypotheses|] == hypotheses
    ensures |Actions(hypotheses)| == |hypotheses| && |Actions(next)| == |next|
    ensures Actions(next)[..|hypotheses|]
         == Actions(hypotheses)[..|hypotheses| - 1] + [hypotheses[|hypotheses| - 1].action]
  {
    assert forall k :: 0 <= k < |hypotheses| ==> next[k] == next[..|hypotheses|][k];
  }

  /** How the logs look when the official draw after the last hypothesis was made and its arm recorded. */
  lemma {:induction false} LogsAfterDraw(
      official: seq<string>, responses: seq<Hypothesis>, hypotheses: seq<Hypothesis>, attempted: set<string>,
      draws: seq<string>, recorded: seq<string>)
    requires SoFar(official, responses, hypotheses, attempted, draws, recorded) && |hypotheses| <= |official|
    ensures
      var n := |hypotheses| - 1;
      && draws + [official[n]] == official[..|hypotheses|]
      && recorded + [hypotheses[n].action] == Actions(hypotheses)[..|hypotheses|]
  {
    hide Selected;
  }

  /** The hypotheses of a run: the first is for the factor arm, every later iteration records the action of the
      hypothesis before it and decides.  `official` holds the official draws in order, `responses` what the language
      model answers, echoed actions included; an unsupported draw ends the run with an error. */
  method RunArms(official: seq<string>, responses: seq<Hypothesis>)
    returns (hypotheses: seq<Hypothesis>, controller: Controller, raised: bool)
    requires |responses| == |official| + 1
    ensures raised <==> exists k :: 0 <= k < |official| && !IsArm(official[k])
    ensures if raised then 0 < |hypotheses| <= |official| && !IsArm(official[|hypotheses| - 1])
      else |hypotheses| == |official| + 1
    ensures forall k :: 0 <= k < |hypotheses| - 1 ==> IsArm(official[k])
    ensures hypotheses == Selected(official, responses)[..|hypotheses|]
    ensures forall k :: 0 <= k < |hypotheses| ==> IsArm(hypotheses[k].action)
    ensures controller.draws == if raised then official[..|hypotheses|] else official
    ensures controller.recorded == Actions(hypotheses)[..if raised then |hypotheses| else |official|]
  {
    hide Selected, Actions;
    controller := new Controller();
    hypotheses := [ConvertResponse("factor", responses[0]).value];
    assert SoFar(official, responses, hypotheses, {}, [], []) by { FirstHypothesis(official, responses); }
    for n := 0 to |official|
      invariant fresh(controller) && |hypotheses| == n + 1
      invariant SoFar(official, responses, hypotheses, controller.attempted, controller.draws, controller.recorded)
    {
      ghost var attempted, draws, log := controller.attempted, controller.draws, controller.recorded;
      LogsAfterDraw(official, responses, hypotheses, attempted, draws, log);
      var recorded := controller.Record(hypotheses[n].action);
      var action := controller.Decide(official[n]);
      if action.None? {
        return hypotheses, controller, true;
      }
      NextHypothesis(official, responses, hypotheses, attempted, draws, log, action.value);
      hide SoFar;
      hypotheses := hypotheses + [ConvertResponse(action.value, responses[n + 1]).value];
    }
    assert official[..|official|] == official;
    raised := false;
  }

  /** A trace that records such a run: rounds carry the action of their hypothesis, and the experiment is of that
      arm. */
  ghost predicate TraceOfRun(trace: Trace, hypotheses: seq<Hypothesis>) {
    && |trace| == |hypotheses|
    && forall k :: 0 <= k < |trace| ==>
      && trace[k].action == Some(hypotheses[k].action)
      && (trace[k].snapshot.Some? ==> ActionOf(trace[k].snapshot.value.kind) == hypotheses[k].action)
  }

  /** The overwriting is what makes coverage hold: a trace of rounds without results that kept the echoes of a language
      model that always answers "factor" would never have attempted the model arm. */
  lemma {:induction false} EchoedTraceMissesAnArm(responses: seq<Hypothesis>, trace: Trace)
    requires TraceOfRun(trace, responses) && forall k :: 0 <= k < |trace| ==> trace[k].snapshot.None?
    requires forall k :: 0 <= k < |responses| ==> responses[k].action == "factor"
    ensures !AttemptedComplete(trace)
  {
    LoopsWithEmpty(trace, Model, Attempted);
  }

  /** The exported coverage of a run of at least two iterations is accepted and reports both arms attempted. */
  lemma {:induction false} RunCoversBothArms(official: seq<string>, responses: seq<Hypothesis>, n: nat, trace: Trace)
    requires |responses| == |official| + 1 && 2 <= n <= |official| + 1
    requires forall k :: 1 <= k < n - 1 ==> IsArm(official[k])
    requires TraceOfRun(trace, Selected(official, responses)[..n])
    ensures forall k :: 0 <= k < |trace| ==> Supported(trace[k])
    ensures AttemptedComplete(trace)
  {
    LoopsWithEmpty(trace, Factor, Attempted);
    LoopsWithEmpty(trace, Model, Attempted);
    assert trace[0].action == Some(ArmAt(official, 0)) && trace[1].action == Some(ArmAt(official, 1));
    assert Marks(trace[0], Factor, Attempted) && Marks(trace[1], Model, Attempted);
    forall k | 0 <= k < n
      ensures Supported(trace[k])
    {
      assert trace[k].action == Some(ArmAt(official, k)) && IsArm(ArmAt(official, k));
    }
  }

  /** From the launcher to the exported coverage in one statement. */
  method LaunchAndExport(official: seq<string>, responses: seq<Hypothesis>, trace: Trace)
    returns (hypotheses: seq<Hypothesis>, coverage: Option<Arms>)
    requires |responses| == |official| + 1 && LoopOrdered(trace)
    ensures TraceOfRun(trace, hypotheses) && |hypotheses| >= 2 ==>
      && coverage.Some? && coverage.value.factor.attempted != [] && coverage.value.model.attempted != []
  {
    var controller, raised;
    hypotheses, controller, raised := RunArms(official, responses);
    if TraceOfRun(trace, hypotheses) && |hypotheses| >= 2 {
      forall k | 1 <= k < |hypotheses| - 1
        ensures IsArm(official[k])
      {
        assert hypotheses[k + 1].action == official[k];
      }
      RunCoversBothArms(official, responses, |hypotheses|, trace);
    }
    var result := ArmCoverage(trace);
    coverage := if result.Ok? then Some(result.value) else None;
  }
}
