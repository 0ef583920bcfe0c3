/** The daily refit: a training day freezes its windows, and every later session re-checks them. */
module ModelRefit {
  import opened Values
  import opened SessionWindows

  datatype Policy = Policy(train: int, purge: int, validation: int, embargo: int, prediction: int) {
    function Required(): int {
      train + purge + validation + embargo + prediction
    }

    /** The window lengths a policy is written for. */
    predicate PositiveWindows() {
      train >= 1 && validation >= 1 && purge >= 0 && embargo >= 0
    }
  }

  /** The frozen policy of the platform. */
  const REFIT_POLICY := Policy(2016, LABEL_HORIZON_TRADING_DAYS, 756, 5, 1)

  datatype RefitError =
    | PolicyChanged | SignalNotASession | ShortHistory | IndexError | UnresolvedSignal
    | WindowChanged | PurgeChanged | BeforeEmbargo | OutsideCalendar

  /** The sessions up to and including the signal date, in order. */
  function UpTo(calendar: seq<Day>, signal: Day): seq<Day> {
    if calendar == [] then []
    else
      var last := |calendar| - 1;
      UpTo(calendar[..last], signal) + if calendar[last] <= signal then [calendar[last]] else []
  }

  /** `xs[-required:]`: a nonpositive count drops from the front instead of keeping from the back. */
  function LastDays(xs: seq<Day>, required: int): seq<Day>
    requires required <= |xs|
  {
    if required > 0 then xs[|xs| - required..] else if -required <= |xs| then xs[-required..] else []
  }

  /** Indexing with negative positions counted from the end. */
  function Item(xs: seq<Day>, i: int): Option<Day> {
    if 0 <= i < |xs| then Some(xs[i]) else if -|xs| <= i < 0 then Some(xs[|xs| + i]) else None
  }

  function TrainingCalendar(calendar: seq<Day>, signal: Day, policy: Policy): Result<Periods, RefitError> {
    var days := UpTo(calendar, signal);
    if days == [] || days[|days| - 1] != signal then Err(SignalNotASession)
    else if |days| < policy.Required() then Err(ShortHistory)
    else
      var selected := LastDays(days, policy.Required());
      var validStart := policy.train + policy.purge;
      var validEnd := validStart + policy.validation - 1;
      var trainStart, trainEnd, vStart, vEnd, test :=
        Item(selected, 0), Item(selected, policy.train - 1), Item(selected, validStart), Item(selected, validEnd),
        Item(selected, validEnd + policy.embargo + 1);
      if trainStart.None? || trainEnd.None? || vStart.None? || vEnd.None? || test.None? then Err(IndexError)
      else if test.value != signal then Err(UnresolvedSignal)
      else Ok(Periods(trainStart.value, trainEnd.value, vStart.value, vEnd.value, test.value, test.value))
  }

  function InferencePeriods(calendar: seq<Day>, signal: Day, frozen: Periods, policy: Policy)
    : Result<Periods, RefitError>
  {
    var days := UpTo(calendar, signal);
    if days == [] || days[|days| - 1] != signal then Err(SignalNotASession)
    else
      var trainStart, trainEnd, validStart, validEnd, now :=
        Position(days, frozen.trainStart), Position(days, frozen.trainEnd), Position(days, frozen.validStart),
        Position(days, frozen.validEnd), Position(days, signal);
      if trainStart.None? || trainEnd.None? || validStart.None? || validEnd.None? || now.None?
      then Err(RefitError.OutsideCalendar)
      else if trainEnd.value - trainStart.value + 1 != policy.train
        || validEnd.value - validStart.value + 1 != policy.validation then Err(WindowChanged)
      else if validStart.value - trainEnd.value - 1 < policy.purge then Err(PurgeChanged)
      else if now.value - validEnd.value - 1 < policy.embargo then Err(BeforeEmbargo)
      else Ok(frozen.(testStart := signal, testEnd := signal))
  }

  /** A monthly or triggered retraining, or a daily inference with the windows frozen by an earlier one. */
  datatype Operation = Retrain | Inference(frozen: Periods)

  /** The script refuses every policy but the platform's own before it reads the calendar. */
  function RefitPeriods(calendar: seq<Day>, signal: Day, policy: Policy, operation: Operation)
    : Result<Periods, RefitError>
  {
    if policy != REFIT_POLICY then Err(PolicyChanged)
    else match operation
         case Retrain => TrainingCalendar(calendar, signal, policy)
         case Inference(frozen) => InferencePeriods(calendar, signal, frozen, policy)
  }

  // ----- prefixes of a calendar -----

  lemma {:induction false} UpToSession(calendar: seq<Day>, k: nat)
    requires Increasing(calendar) && k < |calendar|
    ensures UpTo(calendar, calendar[k]) == calendar[..k + 1]
    decreases |calendar|
  {
    var last := |calendar| - 1;
    if k == last {
      UpToAll(calendar, calendar[k]);
      assert calendar[..k + 1] == calendar;
    } else {
      assert calendar[k] < calendar[last] && calendar[..last][k] == calendar[k];
      assert UpTo(calendar, calendar[k]) == UpTo(calendar[..last], calendar[k]);
      assert Increasing(calendar[..last]);
      hide UpTo, Increasing;
      UpToSession(calendar[..last], k);
      assert calendar[..last][..k + 1] == calendar[..k + 1];
    }
  }

  lemma {:induction false} UpToAll(calendar: seq<Day>, signal: Day)
    requires forall k :: 0 <= k < |calendar| ==> calendar[k] <= signal
    ensures UpTo(calendar, signal) == calendar
    decreases |calendar|
  {
    if calendar != [] {
      var last := |calendar| - 1;
      UpToAll(calendar[..last], signal);
      assert calendar[..last] + [calendar[last]] == calendar;
    }
  }

  lemma {:induction false} UpToMembers(calendar: seq<Day>, signal: Day)
    ensures forall day :: day in UpTo(calendar, signal) ==> day in calendar && day <= signal
    decreases |calendar|
  {
    if calendar != [] {
      UpToMembers(calendar[..|calendar| - 1], signal);
    }
  }

  /** A signal that ends its own prefix is a session, and the prefix stops right there. */
  lemma {:induction false} SignalPosition(calendar: seq<Day>, signal: Day) returns (k: nat)
    requires Increasing(calendar)
    requires UpTo(calendar, signal) != [] && UpTo(calendar, signal)[|UpTo(calendar, signal)| - 1] == signal
    ensures k < |calendar| && calendar[k] == signal && UpTo(calendar, signal) == calendar[..k + 1]
  {
    UpToMembers(calendar, signal);
    assert signal in UpTo(calendar, signal);
    k :| 0 <= k < |calendar| && calendar[k] == signal;
    UpToSession(calendar, k);
  }

  // ----- what a successful training day means -----

  /** The windows of a training day laid out in the calendar: exactly the policy's lengths and gaps. */
  ghost predicate LaidOut(calendar: seq<Day>, base: nat, p: Periods, policy: Policy) {
    var validStart := base + policy.train + policy.purge;
    var test := validStart + policy.validation + policy.embargo;
    && policy.PositiveWindows() && test < |calendar|
    && p.trainStart == calendar[base] && p.trainEnd == calendar[base + policy.train - 1]
    && p.validStart == calendar[validStart] && p.validEnd == calendar[validStart + policy.validation - 1]
    && p.testStart == calendar[test] && p.testEnd == calendar[test]
  }

  lemma {:induction false} TrainingLaysOut(calendar: seq<Day>, signal: Day, policy: Policy) returns (base: nat)
    requires Increasing(calendar) && policy.PositiveWindows() && policy.Required() >= 1
    requires TrainingCalendar(calendar, signal, policy).Ok?
    ensures policy.prediction == 1
    ensures LaidOut(calendar, base, TrainingCalendar(calendar, signal, policy).value, policy)
    ensures TrainingCalendar(calendar, signal, policy).value.testStart == signal
  {
    var k := SignalPosition(calendar, signal);
    var days := UpTo(calendar, signal);
    var selected := LastDays(days, policy.Required());
    base := k + 1 - policy.Required();
    assert forall i :: 0 <= i < |selected| ==> selected[i] == calendar[base + i];
    var test := policy.train + policy.purge + policy.validation + policy.embargo;
    assert selected[test] == signal == calendar[k];
    assert base + test == k;
  }

  /** Item `i` of the kept days is the day `i` sessions after the first of them. */
  lemma {:induction false} KeptDays(calendar: seq<Day>, k: nat, required: int)
    requires 1 <= required <= k + 1 <= |calendar|
    ensures LastDays(calendar[..k + 1], required) == calendar[k + 1 - required..k + 1]
  {
  }

  /** The script retrains exactly under the platform's policy, on sessions that end a long enough history. */
  lemma {:induction false} RetrainsExactly(calendar: seq<Day>, signal: Day, policy: Policy)
    requires Increasing(calendar)
    ensures RefitPeriods(calendar, signal, policy, Retrain).Ok? <==>
      policy == REFIT_POLICY && exists k :: 0 <= k < |calendar| && calendar[k] == signal && policy.Required() <= k + 1
  {
    if RefitPeriods(calendar, signal, policy, Retrain).Ok? {
      var k := SignalPosition(calendar, signal);
      assert |UpTo(calendar, signal)| == k + 1;
    }
    if k: nat :| policy == REFIT_POLICY && k < |calendar| && calendar[k] == signal && policy.Required() <= k + 1 {
      UpToSession(calendar, k);
      KeptDays(calendar, k, policy.Required());
      hide UpTo, LastDays;
      assert RefitPeriods(calendar, signal, policy, Retrain).Ok?;
    }
  }

  /** Every retraining that the script accepts predicts one session, the signal date, and lays the windows out as the
      policy says. */
  lemma {:induction false} RetrainingPredictsOneDay(calendar: seq<Day>, signal: Day, policy: Policy) returns (base: nat)
    requires Increasing(calendar) && RefitPeriods(calendar, signal, policy, Retrain).Ok?
    ensures policy.prediction == 1
    ensures LaidOut(calendar, base, RefitPeriods(calendar, signal, policy, Retrain).value, policy)
    ensures RefitPeriods(calendar, signal, policy, Retrain).value.testStart == signal
  {
    base := TrainingLaysOut(calendar, signal, policy);
  }

  // ----- the training calendar alone, under any policy -----

  ghost predicate AlwaysPredictsOneDay(policy: Policy) {
    forall calendar, signal :: Increasing(calendar) && TrainingCalendar(calendar, signal, policy).Ok? ==>
      policy.prediction == 1
  }

  /** Under any policy with positive windows the training calendar, which the script calls for its own policy only,
      predicts one session exactly when the total length is positive.  Otherwise the slice that should keep the last
      days drops the first ones, and a negative prediction length slips through. */
  lemma {:induction false} PredictionLengthExactly(policy: Policy)
    requires policy.PositiveWindows()
    ensures AlwaysPredictsOneDay(policy) <==> policy.Required() >= 1
  {
    if policy.Required() >= 1 {
      forall calendar, signal | Increasing(calendar) && TrainingCalendar(calendar, signal, policy).Ok?
        ensures policy.prediction == 1
      {
        var _ := TrainingLaysOut(calendar, signal, policy);
      }
    } else {
      NegativePredictionAccepted(policy);
      assert policy.prediction < 0;
    }
  }

  /** On a calendar of just the right length the negative prediction length is accepted. */
  lemma {:induction false} NegativePredictionAccepted(policy: Policy)
    requires policy.PositiveWindows() && policy.Required() < 1
    ensures Increasing(Sessions(1 - policy.prediction))
    ensures TrainingCalendar(Sessions(1 - policy.prediction), -policy.prediction, policy).Ok?
  {
    var n := 1 - policy.prediction;
    var calendar := Sessions(n);
    UpToSession(calendar, n - 1);
    assert calendar[..n] == calendar && calendar[n - 1] == n - 1;
    hide UpTo, Sessions;
    AcceptsSlice(calendar, n - 1, policy);
  }

  /** When the whole history is one day longer than minus the prediction length, the slice ends at the signal date. */
  lemma {:induction false} AcceptsSlice(calendar: seq<Day>, signal: Day, policy: Policy)
    requires policy.PositiveWindows() && policy.Required() < 1
    requires UpTo(calendar, signal) == calendar && |calendar| == 1 - policy.prediction
    requires calendar[|calendar| - 1] == signal
    ensures TrainingCalendar(calendar, signal, policy).Ok?
  {
    hide UpTo, Item;
    var selected := LastDays(calendar, policy.Required());
    var test := policy.train + policy.purge + policy.validation + policy.embargo;
    assert |selected| == test + 1 && selected[test] == signal;
    ItemInside(selected, 0);
    ItemInside(selected, policy.train - 1);
    ItemInside(selected, policy.train + policy.purge);
    ItemInside(selected, policy.train + policy.purge + policy.validation - 1);
    ItemInside(selected, test);
    hide LastDays;
  }

  lemma {:induction false} ItemInside(xs: seq<Day>, i: int)
    requires 0 <= i < |xs|
    ensures Item(xs, i) == Some(xs[i])
  {
  }

  lemma {:induction false} NoSession(calendar: seq<Day>, signal: Day)
    requires signal !in calendar
    ensures UpTo(calendar, signal) == [] || UpTo(calendar, signal)[|UpTo(calendar, signal)| - 1] != signal
  {
    UpToMembers(calendar, signal);
    var days := UpTo(calendar, signal);
    assert days != [] ==> days[|days| - 1] in days;
  }

  /** Every refusal of a training day is true: the signal is no session, the history is short, or the policy does not
      predict exactly one session. */
  lemma {:induction false} TrainingRefusedTruly(calendar: seq<Day>, signal: Day, policy: Policy)
    requires Increasing(calendar) && policy.PositiveWindows() && policy.Required() >= 1
    requires TrainingCalendar(calendar, signal, policy).Err?
    ensures
      match TrainingCalendar(calendar, signal, policy).error
      case SignalNotASession => signal !in calendar
      case ShortHistory => exists k :: 0 <= k < |calendar| && calendar[k] == signal && k + 1 < policy.Required()
      case IndexError => policy.prediction < 1
      case UnresolvedSignal => policy.prediction > 1
      case _ => false
  {
    if signal in calendar {
      var k :| 0 <= k < |calendar| && calendar[k] == signal;
      UpToSession(calendar, k);
      if policy.Required() <= k + 1 {
        KeptDays(calendar, k, policy.Required());
        hide UpTo, LastDays;
        PredictsOther(calendar, k, policy);
      }
    } else {
      NoSession(calendar, signal);
    }
  }

  /** With enough history only the prediction length can be refused. */
  lemma {:induction false} PredictsOther(calendar: seq<Day>, k: nat, policy: Policy)
    requires Increasing(calendar) && k < |calendar| && UpTo(calendar, calendar[k]) == calendar[..k + 1]
    requires policy.PositiveWindows() && 1 <= policy.Required() <= k + 1
    requires LastDays(calendar[..k + 1], policy.Required()) == calendar[k + 1 - policy.Required()..k + 1]
    ensures
      var training := TrainingCalendar(calendar, calendar[k], policy);
      if policy.prediction == 1 then training.Ok?
      else training == Err(if policy.prediction < 1 then IndexError else UnresolvedSignal)
  {
    hide UpTo, LastDays, Item;
    var selected := calendar[k + 1 - policy.Required()..k + 1];
    var validStart := policy.train + policy.purge;
    var test := validStart + policy.validation + policy.embargo;
    ItemAt(selected, 0);
    ItemAt(selected, policy.train - 1);
    ItemAt(selected, validStart);
    ItemAt(selected, validStart + policy.validation - 1);
    ItemAt(selected, test);
    assert test < |selected| - 1 ==> selected[test] < selected[|selected| - 1] == calendar[k];
  }

  lemma {:induction false} ItemAt(xs: seq<Day>, i: nat)
    ensures Item(xs, i) == if i < |xs| then Some(xs[i]) else None
  {
  }

  // ----- what the daily re-check accepts -----

  /** The frozen boundaries are sessions up to the signal, with the lengths of the policy and at least its gaps. */
  ghost predicate FrozenFits(calendar: seq<Day>, signal: Day, frozen: Periods, policy: Policy,
                             t: nat, u: nat, a: nat, v: nat, now: nat)
  {
    && t <= now && u <= now && a <= now && v <= now < |calendar| && calendar[now] == signal
    && calendar[t] == frozen.trainStart && calendar[u] == frozen.trainEnd
    && calendar[a] == frozen.validStart && calendar[v] == frozen.validEnd
    && u - t + 1 == policy.train && v - a + 1 == policy.validation
    && a - u > policy.purge && now - v > policy.embargo
  }

  /** The re-check accepts exactly the sessions on which the frozen windows still have their lengths and gaps; it keeps
      the windows and predicts the signal date. */
  lemma {:induction false} InferenceAcceptedExactly(calendar: seq<Day>, signal: Day, frozen: Periods, policy: Policy)
    requires Increasing(calendar)
    ensures
      var live := InferencePeriods(calendar, signal, frozen, policy);
      && (live.Ok? <==> exists t: nat, u: nat, a: nat, v: nat, now: nat ::
            FrozenFits(calendar, signal, frozen, policy, t, u, a, v, now))
      && (live.Ok? ==> live.value == Periods(frozen.trainStart, frozen.trainEnd, frozen.validStart, frozen.validEnd,
                                             signal, signal))
  {
    if InferencePeriods(calendar, signal, frozen, policy).Ok? {
      AcceptedFits(calendar, signal, frozen, policy);
    }
    if t: nat, u: nat, a: nat, v: nat, now: nat :| FrozenFits(calendar, signal, frozen, policy, t, u, a, v, now) {
      FitsAccepted(calendar, signal, frozen, policy, t, u, a, v, now);
    }
    hide InferencePeriods, FrozenFits;
  }

  /** No session up to the signal. */
  predicate NotYet(calendar: seq<Day>, day: Day, signal: Day) {
    day !in calendar || day > signal
  }

  /** Every refusal of the re-check is true of the frozen windows. */
  lemma {:induction false} InferenceRefusedTruly(calendar: seq<Day>, signal: Day, frozen: Periods, policy: Policy)
    requires Increasing(calendar) && InferencePeriods(calendar, signal, frozen, policy).Err?
    ensures
      match InferencePeriods(calendar, signal, frozen, policy).error
      case SignalNotASession => signal !in calendar
      case OutsideCalendar =>
        || NotYet(calendar, frozen.trainStart, signal) || NotYet(calendar, frozen.trainEnd, signal)
        || NotYet(calendar, frozen.validStart, signal) || NotYet(calendar, frozen.validEnd, signal)
      case WindowChanged =>
        || (exists t: nat, u: nat :: Sits(calendar, frozen.trainStart, t) && Sits(calendar, frozen.trainEnd, u)
              && u - t + 1 != policy.train)
        || (exists a: nat, v: nat :: Sits(calendar, frozen.validStart, a) && Sits(calendar, frozen.validEnd, v)
              && v - a + 1 != policy.validation)
      case PurgeChanged =>
        exists u: nat, a: nat :: Sits(calendar, frozen.trainEnd, u) && Sits(calendar, frozen.validStart, a)
          && a - u - 1 < policy.purge
      case BeforeEmbargo =>
        exists v: nat, now: nat :: Sits(calendar, frozen.validEnd, v) && Sits(calendar, signal, now)
          && now - v - 1 < policy.embargo
      case _ => false
  {
    if signal in calendar {
      var now :| 0 <= now < |calendar| && calendar[now] == signal;
      UpToSession(calendar, now);
      var days := calendar[..now + 1];
      PositionOf(days, now);
      hide UpTo, Position;
      var t, u, a, v := Position(days, frozen.trainStart), Position(days, frozen.trainEnd),
                        Position(days, frozen.validStart), Position(days, frozen.validEnd);
      assert Sits(calendar, signal, now);
      assert t.Some? ==> Sits(calendar, frozen.trainStart, t.value);
      assert u.Some? ==> Sits(calendar, frozen.trainEnd, u.value);
      assert a.Some? ==> Sits(calendar, frozen.validStart, a.value);
      assert v.Some? ==> Sits(calendar, frozen.validEnd, v.value);
      MissingIsLater(calendar, now, frozen.trainStart);
      MissingIsLater(calendar, now, frozen.trainEnd);
      MissingIsLater(calendar, now, frozen.validStart);
      MissingIsLater(calendar, now, frozen.validEnd);
    } else {
      NoSession(calendar, signal);
    }
  }

  lemma {:induction false} MissingIsLater(calendar: seq<Day>, now: nat, day: Day)
    requires Increasing(calendar) && now < |calendar|
    ensures Position(calendar[..now + 1], day).None? ==> NotYet(calendar, day, calendar[now])
  {
    if k: nat :| k < |calendar| && calendar[k] == day {
      assert k <= now ==> calendar[..now + 1][k] == day;
    }
  }

  lemma {:induction false} AcceptedFits(calendar: seq<Day>, signal: Day, frozen: Periods, policy: Policy)
    requires Increasing(calendar) && InferencePeriods(calendar, signal, frozen, policy).Ok?
    ensures exists t: nat, u: nat, a: nat, v: nat, now: nat ::
      FrozenFits(calendar, signal, frozen, policy, t, u, a, v, now)
    ensures InferencePeriods(calendar, signal, frozen, policy).value
      == Periods(frozen.trainStart, frozen.trainEnd, frozen.validStart, frozen.validEnd, signal, signal)
  {
    hide UpTo, Position;
    var now := SignalPosition(calendar, signal);
    var days := UpTo(calendar, signal);
    PositionOf(days, now);
    assert FrozenFits(calendar, signal, frozen, policy, Position(days, frozen.trainStart).value,
                      Position(days, frozen.trainEnd).value, Position(days, frozen.validStart).value,
                      Position(days, frozen.validEnd).value, now);
  }

  lemma {:induction false} FitsAccepted(calendar: seq<Day>, signal: Day, frozen: Periods, policy: Policy,
                                        t: nat, u: nat, a: nat, v: nat, now: nat)
    requires Increasing(calendar) && FrozenFits(calendar, signal, frozen, policy, t, u, a, v, now)
    ensures InferencePeriods(calendar, signal, frozen, policy).Ok?
  {
    UpToSession(calendar, now);
    var days := calendar[..now + 1];
    PositionOf(days, t);
    PositionOf(days, u);
    PositionOf(days, a);
    PositionOf(days, v);
    PositionOf(days, now);
    hide UpTo, Position;
  }

  // ----- frozen windows stay valid -----

  lemma {:induction false} ExtensionKeepsLayout(calendar: seq<Day>, extended: seq<Day>, base: nat, p: Periods,
                                                policy: Policy)
    requires LaidOut(calendar, base, p, policy) && calendar <= extended
    ensures LaidOut(extended, base, p, policy)
  {
  }

  lemma {:induction false} LaidOutAccepted(calendar: seq<Day>, base: nat, p: Periods, policy: Policy, later: nat)
    requires Increasing(calendar) && LaidOut(calendar, base, p, policy)
    requires base + policy.train + policy.purge + policy.validation + policy.embargo <= later < |calendar|
    ensures InferencePeriods(calendar, calendar[later], p, policy)
      == Ok(p.(testStart := calendar[later], testEnd := calendar[later]))
  {
    hide UpTo, Position;
    UpToSession(calendar, later);
    assert Increasing(calendar[..later + 1]);
    var days := calendar[..later + 1];
    var validStart := base + policy.train + policy.purge;
    PositionOf(days, base);
    PositionOf(days, base + policy.train - 1);
    PositionOf(days, validStart);
    PositionOf(days, validStart + policy.validation - 1);
    PositionOf(days, later);
  }

  lemma {:induction false} LaterIndex(calendar: seq<Day>, i: nat, j: nat)
    requires Increasing(calendar) && i < |calendar| && j < |calendar| && calendar[i] >= calendar[j]
    ensures i >= j
  {
  }

  /** Frozen windows pass the daily re-check on the training day and on every later session of any extension. */
  lemma {:induction false} FrozenWindowsStayAccepted(
      calendar: seq<Day>, signal: Day, policy: Policy, extended: seq<Day>, later: nat)
    requires Increasing(calendar) && policy.PositiveWindows() && policy.Required() >= 1
    requires TrainingCalendar(calendar, signal, policy).Ok?
    requires calendar <= extended && Increasing(extended) && later < |extended| && extended[later] >= signal
    ensures
      var frozen := TrainingCalendar(calendar, signal, policy).value;
      InferencePeriods(extended, extended[later], frozen, policy)
        == Ok(frozen.(testStart := extended[later], testEnd := extended[later]))
  {
    hide TrainingCalendar, InferencePeriods;
    var frozen := TrainingCalendar(calendar, signal, policy).value;
    var base := TrainingLaysOut(calendar, signal, policy);
    ExtensionKeepsLayout(calendar, extended, base, frozen, policy);
    var test := base + policy.train + policy.purge + policy.validation + policy.embargo;
    LaterIndex(extended, later, test);
    LaidOutAccepted(extended, base, frozen, policy, later);
  }

  lemma {:induction false} PrefixPosition(calendar: seq<Day>, k: nat, day: Day)
    requires Increasing(calendar) && k <= |calendar| && Position(calendar[..k], day).Some?
    ensures Position(calendar, day) == Position(calendar[..k], day)
  {
    PositionOf(calendar, Position(calendar[..k], day).value);
  }

  /** Whatever the daily re-check accepts, the isolated runner accepts too. */
  lemma {:induction false} RunnerAgrees(calendar: seq<Day>, signal: Day, frozen: Periods, policy: Policy, c: Contract)
    requires Increasing(calendar) && InferencePeriods(calendar, signal, frozen, policy).Ok?
    requires policy.embargo >= 0 && c.purge >= 0
    requires policy.purge >= c.purge && policy.embargo >= c.embargo && policy.validation > c.purge
    ensures CheckWindows(calendar, InferencePeriods(calendar, signal, frozen, policy).value, c).Ok?
  {
    hide UpTo, Position;
    var k := SignalPosition(calendar, signal);
    var days := UpTo(calendar, signal);
    PrefixPosition(calendar, k + 1, frozen.trainStart);
    PrefixPosition(calendar, k + 1, frozen.trainEnd);
    PrefixPosition(calendar, k + 1, frozen.validStart);
    PrefixPosition(calendar, k + 1, frozen.validEnd);
    PrefixPosition(calendar, k + 1, signal);
    PositionOf(calendar, k);
    var validEnd := Position(calendar, frozen.validEnd).value;
    assert validEnd < k;
    assert frozen.validEnd < signal;
  }

  /** A model frozen on a training day never leaks a label, on that day or any later session, on either side. */
  lemma {:induction false} FrozenModelNeverLeaks(
      m: Manifest, calendar: seq<Day>, signal: Day, policy: Policy, extended: seq<Day>, later: nat)
    requires Increasing(calendar) && policy.PositiveWindows() && policy.Required() >= 1
    requires TrainingCalendar(calendar, signal, policy).Ok?
    requires calendar <= extended && Increasing(extended) && later < |extended| && extended[later] >= signal
    requires ResolveContract(m).Ok? && ResolveContract(m).value.purge >= 1 && ResolveContract(m).value.embargo >= 1
    requires policy.purge >= ResolveContract(m).value.purge && policy.embargo >= ResolveContract(m).value.embargo
    requires policy.validation > ResolveContract(m).value.purge
    ensures
      var c := ResolveContract(m).value;
      var frozen := TrainingCalendar(calendar, signal, policy).value;
      var live := InferencePeriods(extended, extended[later], frozen, policy);
      && live.Ok? && CheckWindows(extended, live.value, c).Ok?
      && Isolated(extended, live.value, c, CheckWindows(extended, live.value, c).value)
  {
    var c := ResolveContract(m).value;
    var frozen := TrainingCalendar(calendar, signal, policy).value;
    FrozenWindowsStayAccepted(calendar, signal, policy, extended, later);
    RunnerAgrees(extended, extended[later], frozen, policy, c);
    NoLeak(m, extended, InferencePeriods(extended, extended[later], frozen, policy).value);
  }

  /** The platform's own policy meets every condition for the legacy contract. */
  lemma {:induction false} PlatformPolicyFits()
    ensures REFIT_POLICY.PositiveWindows() && REFIT_POLICY.Required() >= 1 && AlwaysPredictsOneDay(REFIT_POLICY)
    ensures REFIT_POLICY.purge >= LegacyContract().purge && REFIT_POLICY.embargo >= LegacyContract().embargo
    ensures REFIT_POLICY.validation > LegacyContract().purge >= 1 && LegacyContract().embargo >= 1
  {
    PredictionLengthExactly(REFIT_POLICY);
  }

  /** What the refit script hands to the runner: one sealed date, predicted live. */
  predicate LiveUse(u: Use) {
    u.inferenceOnly != u.liveRetrain && u.testSegment && u.oosOpened == Some(false)
  }

  lemma {:induction false} LiveUseAccepted(m: Manifest, u: Use, calendar: seq<Day>, p: Periods)
    requires LiveUse(u) && ResolveContract(m).Ok? && p.testStart == p.testEnd
    requires CheckWindows(calendar, p, ResolveContract(m).value).Ok?
    ensures CheckRun(m, u, calendar, p).Ok?
    ensures CheckRun(m, u, calendar, p).value == CheckWindows(calendar, p, ResolveContract(m).value).value
  {
    hide ResolveContract, CheckWindows;
  }

  /** From one accepted retraining on, the daily inference of the script and the runner it calls are accepted on every
      later session, and no label leaks: the policy the script insists on covers every contract no longer than the
      legacy one. */
  lemma {:induction false} RefreshNeverLeaks(
      m: Manifest, u: Use, calendar: seq<Day>, signal: Day, policy: Policy, extended: seq<Day>, later: nat)
    requires Increasing(calendar) && RefitPeriods(calendar, signal, policy, Retrain).Ok?
    requires calendar <= extended && Increasing(extended) && later < |extended| && extended[later] >= signal
    requires ResolveContract(m).Ok? && LiveUse(u)
    requires 1 <= ResolveContract(m).value.purge <= LegacyContract().purge
    requires 1 <= ResolveContract(m).value.embargo <= LegacyContract().embargo
    ensures
      var c := ResolveContract(m).value;
      var frozen := RefitPeriods(calendar, signal, policy, Retrain).value;
      var live := RefitPeriods(extended, extended[later], policy, Inference(frozen));
      && live.Ok? && live.value.testStart == live.value.testEnd == extended[later]
      && CheckRun(m, u, extended, live.value).Ok?
      && Isolated(extended, live.value, c, CheckRun(m, u, extended, live.value).value)
      && TestIsolated(extended, live.value, c)
  {
    PlatformPolicyFits();
    hide TrainingCalendar, InferencePeriods, ResolveContract, CheckWindows, Isolated, AlwaysPredictsOneDay, CheckRun;
    hide TestIsolated;
    FrozenWindowsStayAccepted(calendar, signal, policy, extended, later);
    FrozenModelNeverLeaks(m, calendar, signal, policy, extended, later);
    var frozen := RefitPeriods(calendar, signal, policy, Retrain).value;
    var live := InferencePeriods(extended, extended[later], frozen, policy).value;
    LiveUseAccepted(m, u, extended, live);
    LiveRunsAreIsolated(m, u, extended, live);
  }
}
