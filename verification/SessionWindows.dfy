/** Trading sessions, positions in a calendar, and the label contracts of the isolated model runner.

    Session dates are ISO strings compared lexicographically; here a day is an integer with the same order.  A digest
    is injective, so a digested value is represented by the value itself.
 */
module SessionWindows {
  import opened Values

  type Day = int

  ghost predicate Increasing(calendar: seq<Day>) {
    forall a, b :: 0 <= a < b < |calendar| ==> calendar[a] < calendar[b]
  }

  /** The position dictionary of the script: a later duplicate wins. */
  function Position(calendar: seq<Day>, day: Day): (p: Option<nat>)
    ensures p.Some? ==> p.value < |calendar| && calendar[p.value] == day
    ensures p.None? ==> forall k :: 0 <= k < |calendar| ==> calendar[k] != day
  {
    var last := |calendar| - 1;
    if calendar == [] then None
    else if calendar[last] == day then Some(last)
    else Position(calendar[..last], day)
  }

  lemma {:induction false} PositionOf(calendar: seq<Day>, k: nat)
    requires Increasing(calendar) && k < |calendar|
    ensures Position(calendar, calendar[k]) == Some(k)
  {
    var p := Position(calendar, calendar[k]);
    if p.Some? {
      assert !(p.value < k) && !(k < p.value);
    }
  }

  // ----- label contracts -----

  /** The label Ref($close,-far)/Ref($close,-near)-1. */
  datatype Expression = CloseRatio(far: int, near: int)

  datatype RawContract = RawContract(
    currentVersion: bool, legacy: bool, profile: string, allowedHorizons: Option<seq<int>>, horizon: Option<int>,
    referenceOffset: Option<int>, expression: Option<Expression>, purge: Option<int>, embargo: Option<int>,
    windowDigest: Option<Window>)

  datatype Window = Window(
    currentVersion: bool, maturityEnforced: bool, profile: string, horizons: Option<seq<int>>,
    purge: Option<int>, embargo: Option<int>)

  /** The label part of a manifest; both digests are optional. */
  datatype Manifest = Manifest(
    contract: Option<RawContract>, contractDigest: Option<RawContract>, window: Option<Window>,
    windowDigest: Option<Window>)

  datatype Contract = Contract(legacy: bool, horizon: int, expression: Expression, purge: int, embargo: int)

  datatype LabelError =
    | InvalidDigest | InvalidVersion | LegacyChanged | NoWindow | ImmatureLabels | Incomplete | OutsideWindow
    | InconsistentExpression | InconsistentIsolation | InconsistentProfile

  const LABEL_HORIZON_TRADING_DAYS := 2
  const FINAL_OOS_EMBARGO_TRADING_DAYS := 5
  const LEGACY_PREDICTION_HORIZON_SESSIONS := 1

  function LegacyRaw(windowDigest: Option<Window>): RawContract {
    RawContract(
      true, true, "legacy_ambiguous", Some([LEGACY_PREDICTION_HORIZON_SESSIONS]),
      Some(LEGACY_PREDICTION_HORIZON_SESSIONS), Some(LABEL_HORIZON_TRADING_DAYS), Some(CloseRatio(2, 1)),
      Some(LABEL_HORIZON_TRADING_DAYS), Some(FINAL_OOS_EMBARGO_TRADING_DAYS), windowDigest)
  }

  function LegacyContract(): Contract {
    Contract(true, LEGACY_PREDICTION_HORIZON_SESSIONS, CloseRatio(2, 1), LABEL_HORIZON_TRADING_DAYS,
             FINAL_OOS_EMBARGO_TRADING_DAYS)
  }

  function OrZero(value: Option<int>): int {
    if value.Some? then value.value else 0
  }

  /** The runner's own verification of the label contract that the platform resolved. */
  function ResolveContract(m: Manifest): Result<Contract, LabelError> {
    if m.contract.None? then Ok(LegacyContract())
    else
      var raw := m.contract.value;
      if m.contractDigest != Some(raw) then Err(InvalidDigest)
      else if !raw.currentVersion then Err(InvalidVersion)
      else if raw.legacy then
        if raw != LegacyRaw(raw.windowDigest) then Err(LegacyChanged) else Ok(LegacyContract())
      else if m.window.None? || !m.window.value.currentVersion || m.windowDigest != m.window
        || raw.windowDigest != m.windowDigest then Err(NoWindow)
      else
        var window := m.window.value;
        if !window.maturityEnforced then Err(ImmatureLabels)
        else if window.horizons.None? || raw.horizon.None? || raw.referenceOffset.None? || raw.purge.None?
          || raw.embargo.None? then Err(Incomplete)
        else
          var h, reference, purge, embargo :=
            raw.horizon.value, raw.referenceOffset.value, raw.purge.value, raw.embargo.value;
          if raw.allowedHorizons != window.horizons || h !in window.horizons.value then Err(OutsideWindow)
          else if reference != h + 1 || raw.expression != Some(CloseRatio(h + 1, 1)) then Err(InconsistentExpression)
          else if purge != OrZero(window.purge) || embargo != OrZero(window.embargo) || purge < reference
            || embargo < reference then Err(InconsistentIsolation)
          else if raw.profile != window.profile then Err(InconsistentProfile)
          else Ok(Contract(false, h, raw.expression.value, purge, embargo))
  }

  /** What every accepted contract satisfies; whichever lane it came from, the isolation covers the far price. */
  lemma {:induction false} AcceptedContract(m: Manifest)
    requires ResolveContract(m).Ok?
    ensures
      var c := ResolveContract(m).value;
      && c.expression == CloseRatio(c.horizon + 1, 1)
      && c.purge >= c.expression.far && c.embargo >= c.expression.far
      && (c.legacy ==> c == LegacyContract())
  {
  }

  /** A contract of one horizon that agrees with the window it was frozen with, and isolates its own far price. */
  ghost predicate IntactHorizon(m: Manifest, raw: RawContract, window: Window, h: int) {
    && m.window == m.windowDigest == raw.windowDigest == Some(window)
    && window.currentVersion && window.maturityEnforced && raw.profile == window.profile
    && raw.allowedHorizons == window.horizons && window.horizons.Some? && h in window.horizons.value
    && raw.horizon == Some(h) && raw.referenceOffset == Some(h + 1) && raw.expression == Some(CloseRatio(h + 1, 1))
    && raw.purge == Some(OrZero(window.purge)) && raw.purge.value > h
    && raw.embargo == Some(OrZero(window.embargo)) && raw.embargo.value > h
  }

  /** A manifest is accepted exactly without a contract, with the untouched legacy one, or with an intact one; the
      contract then is what was written down. */
  lemma {:induction false} ContractAcceptedExactly(m: Manifest)
    ensures ResolveContract(m).Ok? <==>
      m.contract.Some? ==>
        var raw := m.contract.value;
        && m.contractDigest == m.contract && raw.currentVersion
        && if raw.legacy then
             raw == RawContract(true, true, "legacy_ambiguous", Some([1]), Some(1), Some(2), Some(CloseRatio(2, 1)),
                                Some(2), Some(5), raw.windowDigest)
           else exists window, h :: IntactHorizon(m, raw, window, h)
    ensures ResolveContract(m).Ok? ==>
      var c := ResolveContract(m).value;
      if m.contract.None? || m.contract.value.legacy then c == Contract(true, 1, CloseRatio(2, 1), 2, 5)
      else
        && m.contract.value.horizon == Some(c.horizon) && m.contract.value.purge == Some(c.purge)
        && m.contract.value.embargo == Some(c.embargo) && !c.legacy
  {
    if m.contract.Some? && !m.contract.value.legacy && ResolveContract(m).Ok? {
      assert IntactHorizon(m, m.contract.value, m.window.value, m.contract.value.horizon.value);
    }
  }

  /** Every refusal of a contract is true of the manifest. */
  lemma {:induction false} ContractRefusedTruly(m: Manifest)
    requires ResolveContract(m).Err?
    ensures m.contract.Some?
    ensures
      var raw := m.contract.value;
      match ResolveContract(m).error
      case InvalidDigest => m.contractDigest != m.contract
      case InvalidVersion => !raw.currentVersion
      case LegacyChanged => raw.legacy && raw != LegacyRaw(raw.windowDigest)
      case NoWindow =>
        m.window.None? || !m.window.value.currentVersion || m.windowDigest != m.window || raw.windowDigest != m.window
      case ImmatureLabels => m.window.Some? && !m.window.value.maturityEnforced
      case Incomplete =>
        || (m.window.Some? && m.window.value.horizons.None?)
        || None in {raw.horizon, raw.referenceOffset, raw.purge, raw.embargo}
      case OutsideWindow =>
        m.window.Some? && raw.horizon.Some? && m.window.value.horizons.Some?
        && (raw.allowedHorizons != m.window.value.horizons || raw.horizon.value !in m.window.value.horizons.value)
      case InconsistentExpression =>
        raw.horizon.Some? && var h := raw.horizon.value;
        raw.referenceOffset != Some(h + 1) || raw.expression != Some(CloseRatio(h + 1, 1))
      case InconsistentIsolation =>
        m.window.Some? && raw.horizon.Some? && raw.purge.Some? && raw.embargo.Some?
        && (raw.purge.value != OrZero(m.window.value.purge) || raw.embargo.value != OrZero(m.window.value.embargo)
            || raw.purge.value <= raw.horizon.value || raw.embargo.value <= raw.horizon.value)
      case InconsistentProfile => m.window.Some? && raw.profile != m.window.value.profile
  {
  }

  // ----- windows -----

  datatype Periods = Periods(
    trainStart: Day, trainEnd: Day, validStart: Day, validEnd: Day, testStart: Day, testEnd: Day)

  datatype WindowError =
    | ValidationReachesTest | OutsideCalendar | UnpurgedTraining | ShortValidation | CalendarOverrun | ShortEmbargo

  /** The fitted segments: early stopping ends `purge` sessions before the validation window does. */
  datatype Segments = Segments(trainStart: Day, trainEnd: Day, validStart: Day, fitValidEnd: Day)

  function CheckWindows(calendar: seq<Day>, p: Periods, c: Contract): Result<Segments, WindowError> {
    if p.validEnd >= p.testStart then Err(ValidationReachesTest)
    else
      var validStart, trainEnd := Position(calendar, p.validStart), Position(calendar, p.trainEnd);
      if validStart.None? || trainEnd.None? then Err(OutsideCalendar)
      else if validStart.value - trainEnd.value - 1 < c.purge then Err(UnpurgedTraining)
      else
        var validEnd := Position(calendar, p.validEnd);
        if validEnd.None? then Err(OutsideCalendar)
        else
          var fit := validEnd.value - c.purge;
          if fit < validStart.value then Err(ShortValidation)
          else if fit >= |calendar| then Err(CalendarOverrun)
          else
            var testStart := Position(calendar, p.testStart);
            if testStart.Some? && testStart.value - validEnd.value - 1 < c.embargo then Err(ShortEmbargo)
            else Ok(Segments(p.trainStart, p.trainEnd, p.validStart, calendar[fit]))
  }

  // ----- what the runner does with them -----

  /** What a manifest asks for.  `cadence` is the profile of an intact execution cadence, and `interval` the calendar
      with the boundaries that end the last daily interval. */
  datatype Use = Use(inferenceOnly: bool, liveRetrain: bool, testSegment: bool, oosOpened: Option<bool>,
                     cadence: Option<string>, interval: seq<Day>)
  {
    predicate Live() {
      inferenceOnly || liveRetrain
    }
  }

  datatype RunError =
    | LabelRefused(labelError: LabelError) | NoCadence | OtherCadence | WindowsRefused(windowError: WindowError)
    | ModesExcludeEachOther | NotOneSealedDate | OosNotOpened | NoBoundary

  /** The profiles that have a decision cadence. */
  const ACTIVE_PROFILES := {"short_1_5d", "swing_1_6m", "long_1_3y"}

  function ProfileOf(m: Manifest): string {
    if m.contract.None? then "legacy_ambiguous" else m.contract.value.profile
  }

  /** The portfolio of a research run needs a session to end on and a later boundary. */
  predicate Bounded(calendar: seq<Day>, interval: seq<Day>, end: Day) {
    calendar <= interval && end in calendar && exists k :: 0 <= k < |interval| && interval[k] > end
  }

  /** The checks of the runner in their order. */
  function CheckRun(m: Manifest, u: Use, calendar: seq<Day>, p: Periods): Result<Segments, RunError> {
    if ResolveContract(m).Err? then Err(LabelRefused(ResolveContract(m).error))
    else
      var c := ResolveContract(m).value;
      if !u.Live() && c.legacy then Err(NoCadence)
      else if !u.Live() && (u.cadence != Some(ProfileOf(m)) || ProfileOf(m) !in ACTIVE_PROFILES) then Err(OtherCadence)
      else if CheckWindows(calendar, p, c).Err? then Err(WindowsRefused(CheckWindows(calendar, p, c).error))
      else if u.inferenceOnly && u.liveRetrain then Err(ModesExcludeEachOther)
      else if u.Live() then
        if !u.testSegment || u.oosOpened != Some(false) || p.testStart != p.testEnd then Err(NotOneSealedDate)
        else Ok(CheckWindows(calendar, p, c).value)
      else if u.testSegment && u.oosOpened != Some(true) then Err(OosNotOpened)
      else if !Bounded(calendar, u.interval, if u.testSegment then p.testEnd else p.validEnd) then Err(NoBoundary)
      else Ok(CheckWindows(calendar, p, c).value)
  }

  /** The label of session `k` reads only prices strictly before session `bound`. */
  predicate ReadsBefore(c: Contract, k: int, bound: int) {
    k + c.expression.near < bound && k + c.expression.far < bound
  }

  /** No label of a fitted window looks into the next window.  A read is a calendar position `k + offset`. */
  ghost predicate Isolated(calendar: seq<Day>, p: Periods, c: Contract, s: Segments) {
    && (forall k, v :: 0 <= k < |calendar| && 0 <= v < |calendar| && calendar[v] == p.validStart ==>
      (calendar[k] <= s.trainEnd ==> ReadsBefore(c, k, v)))
    && (forall k, v :: 0 <= k < |calendar| && 0 <= v < |calendar| && calendar[v] == p.validEnd ==>
      (s.validStart <= calendar[k] <= s.fitValidEnd ==> ReadsBefore(c, k, v + 1)))
    && (forall k, t :: 0 <= k < |calendar| && 0 <= t < |calendar| && calendar[t] == p.testStart ==>
      (calendar[k] <= p.validEnd ==> ReadsBefore(c, k, t)))
  }

  lemma {:induction false} NoLeak(m: Manifest, calendar: seq<Day>, p: Periods)
    requires Increasing(calendar) && ResolveContract(m).Ok?
    requires CheckWindows(calendar, p, ResolveContract(m).value).Ok?
    requires ResolveContract(m).value.purge >= 1 && ResolveContract(m).value.embargo >= 1
    ensures
      Isolated(calendar, p, ResolveContract(m).value, CheckWindows(calendar, p, ResolveContract(m).value).value)
  {
    AcceptedContract(m);
    var c := ResolveContract(m).value;
    var s := CheckWindows(calendar, p, c).value;
    var validStart, trainEnd, validEnd :=
      Position(calendar, p.validStart).value, Position(calendar, p.trainEnd).value,
      Position(calendar, p.validEnd).value;
    forall k, v | 0 <= k < |calendar| && 0 <= v < |calendar| && calendar[v] == p.validStart && calendar[k] <= s.trainEnd
      ensures ReadsBefore(c, k, v)
    {
      PositionOf(calendar, v);
      assert k <= trainEnd;
    }
    forall k, v | 0 <= k < |calendar| && 0 <= v < |calendar| && calendar[v] == p.validEnd
      && s.validStart <= calendar[k] <= s.fitValidEnd
      ensures ReadsBefore(c, k, v + 1)
    {
      PositionOf(calendar, v);
      assert k <= validEnd - c.purge;
    }
    forall k, t | 0 <= k < |calendar| && 0 <= t < |calendar| && calendar[t] == p.testStart && calendar[k] <= p.validEnd
      ensures ReadsBefore(c, k, t)
    {
      PositionOf(calendar, t);
      assert k <= validEnd;
    }
  }

  /** Both lanes in ordinary use isolate: the legacy contract, and every nonnegative horizon. */
  lemma {:induction false} OrdinaryContractsIsolate(m: Manifest, calendar: seq<Day>, p: Periods)
    requires Increasing(calendar) && ResolveContract(m).Ok?
    requires CheckWindows(calendar, p, ResolveContract(m).value).Ok?
    requires ResolveContract(m).value.legacy || ResolveContract(m).value.horizon >= 0
    ensures
      Isolated(calendar, p, ResolveContract(m).value, CheckWindows(calendar, p, ResolveContract(m).value).value)
  {
    AcceptedContract(m);
    NoLeak(m, calendar, p);
  }

  // ----- what is accepted -----

  /** The windows end and start on sessions `t`, `a` and `v` that leave the gaps of the contract. */
  ghost predicate WindowsFit(calendar: seq<Day>, p: Periods, c: Contract, t: nat, a: nat, v: nat) {
    && t < |calendar| && a < |calendar| && v < |calendar|
    && calendar[t] == p.trainEnd && calendar[a] == p.validStart && calendar[v] == p.validEnd
    && p.validEnd < p.testStart
    && a - t > c.purge && a + c.purge <= v && v - c.purge < |calendar|
    && forall x :: 0 <= x < |calendar| && calendar[x] == p.testStart ==> x - v > c.embargo
  }

  /** The boundaries are sessions, the gaps cover the contract, and early stopping keeps at least one session. */
  lemma {:induction false} WindowsAcceptedExactly(calendar: seq<Day>, p: Periods, c: Contract)
    requires Increasing(calendar)
    ensures CheckWindows(calendar, p, c).Ok? <==> exists t: nat, a: nat, v: nat :: WindowsFit(calendar, p, c, t, a, v)
  {
    hide Position;
    if CheckWindows(calendar, p, c).Ok? {
      var t, a, v :=
        Position(calendar, p.trainEnd).value, Position(calendar, p.validStart).value,
        Position(calendar, p.validEnd).value;
      forall x | 0 <= x < |calendar| && calendar[x] == p.testStart
        ensures x - v > c.embargo
      {
        PositionOf(calendar, x);
      }
      assert WindowsFit(calendar, p, c, t, a, v);
    }
    if t: nat, a: nat, v: nat :| WindowsFit(calendar, p, c, t, a, v) {
      PositionOf(calendar, t);
      PositionOf(calendar, a);
      PositionOf(calendar, v);
      assert Position(calendar, p.testStart).Some? ==> Position(calendar, p.testStart).value - v > c.embargo;
    }
  }

  ghost predicate Sits(calendar: seq<Day>, day: Day, k: nat) {
    k < |calendar| && calendar[k] == day
  }

  /** Every refusal of windows is true of the calendar. */
  lemma {:induction false} WindowsRefusedTruly(calendar: seq<Day>, p: Periods, c: Contract)
    requires Increasing(calendar) && CheckWindows(calendar, p, c).Err?
    ensures
      match CheckWindows(calendar, p, c).error
      case ValidationReachesTest => p.validEnd >= p.testStart
      case OutsideCalendar => !({p.trainEnd, p.validStart, p.validEnd} <= set day | day in calendar)
      case UnpurgedTraining =>
        exists t: nat, a: nat :: Sits(calendar, p.trainEnd, t) && Sits(calendar, p.validStart, a) && a - t - 1 < c.purge
      case ShortValidation =>
        exists a: nat, v: nat :: Sits(calendar, p.validStart, a) && Sits(calendar, p.validEnd, v) && v - c.purge < a
      case CalendarOverrun => exists v: nat :: Sits(calendar, p.validEnd, v) && v - c.purge >= |calendar|
      case ShortEmbargo =>
        exists v: nat, x: nat ::
          Sits(calendar, p.validEnd, v) && Sits(calendar, p.testStart, x) && x - v - 1 < c.embargo
  {
    hide Position;
    var t, a, v, x := Position(calendar, p.trainEnd), Position(calendar, p.validStart), Position(calendar, p.validEnd),
                      Position(calendar, p.testStart);
    assert t.Some? ==> Sits(calendar, p.trainEnd, t.value);
    assert a.Some? ==> Sits(calendar, p.validStart, a.value);
    assert v.Some? ==> Sits(calendar, p.validEnd, v.value);
    assert x.Some? ==> Sits(calendar, p.testStart, x.value);
  }

  /** Every refusal of a run is true of what it asks for. */
  lemma {:induction false} RunRefusedTruly(m: Manifest, u: Use, calendar: seq<Day>, p: Periods)
    requires CheckRun(m, u, calendar, p).Err?
    ensures
      match CheckRun(m, u, calendar, p).error
      case LabelRefused(e) => ResolveContract(m) == Err(e)
      case NoCadence => !u.Live() && ResolveContract(m).Ok? && ResolveContract(m).value.legacy
      case OtherCadence => !u.Live() && (u.cadence != Some(ProfileOf(m)) || ProfileOf(m) !in ACTIVE_PROFILES)
      case WindowsRefused(e) => ResolveContract(m).Ok? && CheckWindows(calendar, p, ResolveContract(m).value) == Err(e)
      case ModesExcludeEachOther => u.inferenceOnly && u.liveRetrain
      case NotOneSealedDate => u.Live() && (!u.testSegment || u.oosOpened != Some(false) || p.testStart != p.testEnd)
      case OosNotOpened => !u.Live() && u.testSegment && u.oosOpened != Some(true)
      case NoBoundary => !u.Live() && !Bounded(calendar, u.interval, if u.testSegment then p.testEnd else p.validEnd)
  {
    hide ResolveContract, CheckWindows, Bounded, ProfileOf;
  }

  /** A live run predicts one sealed date and never opens the final test; a research run keeps its cadence and ends
      before a known boundary, on the test segment only once that is opened. */
  lemma {:induction false} RunAcceptedExactly(m: Manifest, u: Use, calendar: seq<Day>, p: Periods)
    ensures CheckRun(m, u, calendar, p).Ok? <==>
      && ResolveContract(m).Ok? && CheckWindows(calendar, p, ResolveContract(m).value).Ok?
      && if u.Live() then
           u.inferenceOnly != u.liveRetrain && u.testSegment && u.oosOpened == Some(false) && p.testStart == p.testEnd
         else
           && !ResolveContract(m).value.legacy && u.cadence == Some(ProfileOf(m)) && ProfileOf(m) in ACTIVE_PROFILES
           && (u.testSegment ==> u.oosOpened == Some(true))
           && var end := if u.testSegment then p.testEnd else p.validEnd;
              calendar <= u.interval && end in calendar && exists boundary :: boundary in u.interval && boundary > end
  {
    hide ResolveContract, CheckWindows, ProfileOf;
    var end := if u.testSegment then p.testEnd else p.validEnd;
    if Bounded(calendar, u.interval, end) {
      var k :| 0 <= k < |u.interval| && u.interval[k] > end;
      assert u.interval[k] in u.interval;
    }
  }

  // ----- which sessions are fitted -----

  predicate TrainedOn(s: Segments, day: Day) {
    s.trainStart <= day <= s.trainEnd
  }

  predicate StoppedOn(s: Segments, day: Day) {
    s.validStart <= day <= s.fitValidEnd
  }

  /** The sessions after session `k` up to and including a day. */
  function SessionsAfter(calendar: seq<Day>, k: nat, end: Day): set<nat> {
    set j: nat | k < j < |calendar| && calendar[j] <= end
  }

  lemma {:induction false} AfterAreCounted(calendar: seq<Day>, k: nat, v: nat)
    requires Increasing(calendar) && k <= v < |calendar|
    ensures |SessionsAfter(calendar, k, calendar[v])| == v - k
    decreases v - k
  {
    if k == v {
      assert SessionsAfter(calendar, k, calendar[v]) == {};
    } else {
      AfterAreCounted(calendar, k + 1, v);
      assert SessionsAfter(calendar, k, calendar[v]) == SessionsAfter(calendar, k + 1, calendar[v]) + {k + 1};
    }
  }

  /** A session stops the training early: it is validated, and the label horizon still fits behind it. */
  ghost predicate ValidatedWithLabel(calendar: seq<Day>, p: Periods, c: Contract, k: nat)
    requires k < |calendar|
  {
    p.validStart <= calendar[k] <= p.validEnd && |SessionsAfter(calendar, k, p.validEnd)| >= c.purge
  }

  ghost predicate StopsWithLabels(calendar: seq<Day>, p: Periods, c: Contract, s: Segments) {
    forall k: nat :: k < |calendar| ==> (StoppedOn(s, calendar[k]) <==> ValidatedWithLabel(calendar, p, c, k))
  }

  /** The model is fitted on exactly the training window, and stopped early on exactly the validated sessions that have
      `purge` further ones behind them; with a negative purge the latter window runs past the validation end. */
  lemma {:induction false} FitsExactly(m: Manifest, u: Use, calendar: seq<Day>, p: Periods)
    requires Increasing(calendar) && CheckRun(m, u, calendar, p).Ok?
    ensures
      var c, s := ResolveContract(m).value, CheckRun(m, u, calendar, p).value;
      && (forall day :: TrainedOn(s, day) <==> p.trainStart <= day <= p.trainEnd)
      && (StopsWithLabels(calendar, p, c, s) <==> c.purge >= 0)
  {
    var c, s := ResolveContract(m).value, CheckRun(m, u, calendar, p).value;
    hide ResolveContract, Position;
    assert CheckWindows(calendar, p, c) == Ok(s);
    var v := Position(calendar, p.validEnd).value;
    if c.purge >= 0 {
      forall k: nat | k < |calendar|
        ensures StoppedOn(s, calendar[k]) <==> ValidatedWithLabel(calendar, p, c, k)
      {
        if k <= v {
          AfterAreCounted(calendar, k, v);
        }
      }
    } else {
      var over := v - c.purge;
      assert calendar[over] > p.validEnd && StoppedOn(s, calendar[over]);
      assert !ValidatedWithLabel(calendar, p, c, over);
    }
  }

  // ----- a test start that is no session -----

  /** The first session on or after a day, or the end of the calendar. */
  function FirstFrom(calendar: seq<Day>, day: Day): (t: nat)
    ensures t <= |calendar| && (t < |calendar| ==> day <= calendar[t])
    ensures forall k :: 0 <= k < t ==> calendar[k] < day
  {
    if calendar == [] then 0
    else
      var t := FirstFrom(calendar[..|calendar| - 1], day);
      if t < |calendar| - 1 || day <= calendar[t] then t else |calendar|
  }

  /** No label dated up to the validation end reaches a session of the test window. */
  ghost predicate TestIsolated(calendar: seq<Day>, p: Periods, c: Contract) {
    forall k, t :: 0 <= k < |calendar| && 0 <= t < |calendar| ==>
      calendar[k] <= p.validEnd && p.testStart <= calendar[t] <= p.testEnd ==> ReadsBefore(c, k, t)
  }

  /** The label of the validation end ends before the first session of the test window. */
  ghost predicate LabelEndsBeforeTest(calendar: seq<Day>, p: Periods, c: Contract)
    requires Position(calendar, p.validEnd).Some?
  {
    var v, t := Position(calendar, p.validEnd).value, FirstFrom(calendar, p.testStart);
    t < |calendar| && calendar[t] <= p.testEnd ==> v + Max(c.expression.near, c.expression.far) < t
  }

  lemma {:induction false} EmbargoCoversTest(m: Manifest, calendar: seq<Day>, p: Periods)
    requires Increasing(calendar) && ResolveContract(m).Ok? && ResolveContract(m).value.embargo >= 1
    requires CheckWindows(calendar, p, ResolveContract(m).value).Ok? && p.testStart in calendar
    ensures LabelEndsBeforeTest(calendar, p, ResolveContract(m).value)
  {
    AcceptedContract(m);
    var s :| 0 <= s < |calendar| && calendar[s] == p.testStart;
    PositionOf(calendar, s);
    assert FirstFrom(calendar, p.testStart) == s;
    hide ResolveContract;
  }

  /** The runner checks the embargo only when the test start is a session.  Then the test window is isolated; otherwise
      it is isolated exactly when the label of the validation end ends before its first session. */
  lemma {:induction false} TestIsolationExactly(m: Manifest, u: Use, calendar: seq<Day>, p: Periods)
    requires Increasing(calendar) && CheckRun(m, u, calendar, p).Ok? && ResolveContract(m).value.embargo >= 1
    ensures
      var c := ResolveContract(m).value;
      && (TestIsolated(calendar, p, c) <==> LabelEndsBeforeTest(calendar, p, c))
      && (p.testStart in calendar ==> TestIsolated(calendar, p, c))
  {
    if p.testStart in calendar {
      EmbargoCoversTest(m, calendar, p);
    }
    hide ResolveContract, FirstFrom;
    var c, v, t := ResolveContract(m).value, Position(calendar, p.validEnd).value, FirstFrom(calendar, p.testStart);
    if LabelEndsBeforeTest(calendar, p, c) {
      forall k, w | 0 <= k < |calendar| && 0 <= w < |calendar| && calendar[k] <= p.validEnd
        && p.testStart <= calendar[w] <= p.testEnd
        ensures ReadsBefore(c, k, w)
      {
        assert k <= v && t <= w;
      }
    } else {
      assert !ReadsBefore(c, v, t);
    }
  }

  /** A live run predicts one date, and no label reaches it. */
  lemma {:induction false} LiveRunsAreIsolated(m: Manifest, u: Use, calendar: seq<Day>, p: Periods)
    requires Increasing(calendar) && CheckRun(m, u, calendar, p).Ok? && u.Live()
    requires ResolveContract(m).value.embargo >= 1
    ensures TestIsolated(calendar, p, ResolveContract(m).value)
  {
    TestIsolationExactly(m, u, calendar, p);
    hide ResolveContract, CheckWindows;
  }

  /** An intact label contract of one horizon. */
  function HorizonManifest(profile: string, horizon: int, gap: int): Manifest {
    var window := Window(true, true, profile, Some([horizon]), Some(gap), Some(gap));
    var raw := RawContract(true, false, profile, Some([horizon]), Some(horizon), Some(horizon + 1),
                           Some(CloseRatio(horizon + 1, 1)), Some(gap), Some(gap), Some(window));
    Manifest(Some(raw), Some(raw), Some(window), Some(window))
  }

  /** A research run on the validation or on the opened test segment. */
  function ResearchUse(profile: string, testSegment: bool, interval: seq<Day>): Use {
    Use(false, false, testSegment, if testSegment then Some(true) else None, Some(profile), interval)
  }

  const EVEN_DAYS: seq<Day> := [0, 2, 4, 6, 8, 10, 12, 14, 16]
  const PERIODS_BETWEEN: Periods := Periods(0, 0, 6, 10, 11, 14)

  /** A research run with labels of one session passes with a test start between two sessions, the first of them right
      after the validation end, and the label of the validation end reads into the test window. */
  lemma {:induction false} TestStartBetweenSessions(profile: string, testSegment: bool)
    requires profile in ACTIVE_PROFILES
    ensures
      var m, calendar, p := HorizonManifest(profile, 1, 2), EVEN_DAYS, PERIODS_BETWEEN;
      && Increasing(calendar) && CheckRun(m, ResearchUse(profile, testSegment, calendar), calendar, p).Ok?
      && !TestIsolated(calendar, p, ResolveContract(m).value)
  {
    var m, calendar, p := HorizonManifest(profile, 1, 2), EVEN_DAYS, PERIODS_BETWEEN;
    var c := ResolveContract(m).value;
    assert ResolveContract(m) == Ok(Contract(false, 1, CloseRatio(2, 1), 2, 2));
    BetweenSessions();
    hide ResolveContract, CheckWindows, Position;
    assert calendar[5] == 10 && calendar[7] == 14 && calendar[8] == 16;
    assert calendar[5] <= p.validEnd && p.testStart <= calendar[6] <= p.testEnd && !ReadsBefore(c, 5, 6);
  }

  lemma {:induction false} BetweenSessions()
    ensures
      var calendar, p := EVEN_DAYS, PERIODS_BETWEEN;
      Increasing(calendar)
      && CheckWindows(calendar, p, Contract(false, 1, CloseRatio(2, 1), 2, 2)) == Ok(Segments(0, 0, 6, 6))
  {
    var calendar := EVEN_DAYS;
    PositionOf(calendar, 0);
    PositionOf(calendar, 3);
    PositionOf(calendar, 5);
    NotASession(calendar, 11);
    hide Position;
  }

  lemma {:induction false} NotASession(calendar: seq<Day>, day: Day)
    requires day !in calendar
    ensures Position(calendar, day).None?
  {
  }

  // ----- when every window is isolated -----

  function Sessions(n: nat): seq<Day> {
    seq(n, k => k)
  }

  /** Periods that leak when nothing is purged: training ends right before validation starts. */
  function UnpurgedPeriods(embargo: int): Periods {
    Periods(0, 0, 1, 1, 2 + Max(0, embargo), 2 + Max(0, embargo))
  }

  /** Periods that leak when nothing is embargoed: the test starts right after the validation end. */
  function UnembargoedPeriods(purge: nat): Periods {
    Periods(0, 0, purge + 1, 2 * purge + 1, 2 * purge + 2, 2 * purge + 2)
  }

  ghost predicate AlwaysIsolates(c: Contract) {
    forall calendar, p :: Increasing(calendar) && CheckWindows(calendar, p, c).Ok? ==>
      Isolated(calendar, p, c, CheckWindows(calendar, p, c).value)
  }

  /** The runner never asks for a positive horizon.  A contract without purge passes and leaks one session. */
  lemma {:induction false} UnpurgedLeak(c: Contract)
    requires c.expression.near == 1 && c.purge < 1
    ensures !AlwaysIsolates(c)
  {
    var calendar, p := Sessions(3 - c.purge + Max(0, c.embargo)), UnpurgedPeriods(c.embargo);
    PositionOf(calendar, 0);
    PositionOf(calendar, 1);
    PositionOf(calendar, p.testStart);
    var s := CheckWindows(calendar, p, c).value;
    assert CheckWindows(calendar, p, c) == Ok(Segments(0, 0, 1, calendar[1 - c.purge]));
    assert calendar[0] <= s.trainEnd && calendar[1] == p.validStart;
    assert !ReadsBefore(c, 0, 1);
    assert !Isolated(calendar, p, c, s);
  }

  lemma {:induction false} UnembargoedAccepted(c: Contract)
    requires c.purge >= 1 && c.embargo < 1
    ensures CheckWindows(Sessions(2 * c.purge + 3), UnembargoedPeriods(c.purge), c).Ok?
  {
    var calendar := Sessions(2 * c.purge + 3);
    PositionOf(calendar, 0);
    PositionOf(calendar, c.purge + 1);
    PositionOf(calendar, 2 * c.purge + 1);
    PositionOf(calendar, 2 * c.purge + 2);
    hide Position;
  }

  lemma {:induction false} UnembargoedLeak(c: Contract)
    requires c.expression.near == 1 && c.purge >= 1 && c.embargo < 1
    ensures !AlwaysIsolates(c)
  {
    UnembargoedAccepted(c);
    hide CheckWindows;
    var calendar, p := Sessions(2 * c.purge + 3), UnembargoedPeriods(c.purge);
    assert calendar[2 * c.purge + 1] <= p.validEnd && calendar[2 * c.purge + 2] == p.testStart;
    assert !ReadsBefore(c, 2 * c.purge + 1, 2 * c.purge + 2);
    assert !Isolated(calendar, p, c, CheckWindows(calendar, p, c).value);
  }

  /** For accepted contracts, isolation on every calendar is exactly a purge and an embargo of at least one session. */
  lemma {:induction false} IsolationExactly(m: Manifest)
    requires ResolveContract(m).Ok?
    ensures
      var c := ResolveContract(m).value;
      AlwaysIsolates(c) <==> c.purge >= 1 && c.embargo >= 1
  {
    AcceptedContract(m);
    var c := ResolveContract(m).value;
    if c.purge < 1 {
      UnpurgedLeak(c);
    } else if c.embargo < 1 {
      UnembargoedLeak(c);
    } else {
      forall calendar, p | Increasing(calendar) && CheckWindows(calendar, p, c).Ok?
        ensures Isolated(calendar, p, c, CheckWindows(calendar, p, c).value)
      {
        NoLeak(m, calendar, p);
      }
    }
  }

  /** A research run with labels of horizon -1 passes every check on windows whose test start is a session, although its
      label reads the first validation price. */
  lemma {:induction false} AcceptedLeakExists(profile: string, testSegment: bool)
    requires profile in ACTIVE_PROFILES
    ensures
      var m, calendar, p := HorizonManifest(profile, -1, 0), Sessions(6), Periods(0, 0, 1, 2, 3, 4);
      var run := CheckRun(m, ResearchUse(profile, testSegment, calendar), calendar, p);
      && Increasing(calendar) && run.Ok? && p.testStart in calendar
      && !Isolated(calendar, p, ResolveContract(m).value, run.value)
  {
    var m, calendar, p := HorizonManifest(profile, -1, 0), Sessions(6), Periods(0, 0, 1, 2, 3, 4);
    assert ResolveContract(m) == Ok(Contract(false, -1, CloseRatio(0, 1), 0, 0));
    SixSessions();
    hide ResolveContract, Position, CheckWindows;
    assert calendar[4] == 4 && calendar[5] == 5;
    assert calendar[0] <= 0 && calendar[1] == p.validStart && !ReadsBefore(ResolveContract(m).value, 0, 1);
  }

  lemma {:induction false} SixSessions()
    ensures Increasing(Sessions(6)) && 3 in Sessions(6)
    ensures CheckWindows(Sessions(6), Periods(0, 0, 1, 2, 3, 4), Contract(false, -1, CloseRatio(0, 1), 0, 0))
         == Ok(Segments(0, 0, 1, 2))
  {
    var calendar := Sessions(6);
    assert calendar[3] == 3;
    PositionOf(calendar, 0);
    PositionOf(calendar, 1);
    PositionOf(calendar, 2);
    PositionOf(calendar, 3);
    hide Position;
  }
}
