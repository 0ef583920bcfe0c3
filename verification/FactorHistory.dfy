/** Past-only account conversion factors: a forward-filled table answers which factor was last known for an instrument.
 */
module FactorHistory {
  import opened Values
  import opened SortedLists
  import CrossSections

  datatype Factor = NotANumber | Infinite | Finite(value: real)

  /** A missing date is an unknown observation time. */
  datatype Observation = Observation(date: Option<nat>, instrument: nat, factor: Factor)

  datatype HistoryError = UnknownObservationTime | DuplicateObservation | UnknownSignalTime

  /** Only finite positive factors are usable. */
  function Usable(f: Factor): Option<real> {
    if f.Finite? && f.value > 0.0 then Some(f.value) else None
  }

  predicate Observes(o: Observation, when: nat, instrument: nat) {
    o.date.Some? && o.date.value <= when && o.instrument == instrument && Usable(o.factor).Some?
  }

  ghost predicate KnownTimes(obs: seq<Observation>) {
    forall k :: 0 <= k < |obs| ==> obs[k].date.Some?
  }

  ghost predicate NoDuplicates(obs: seq<Observation>) {
    forall j, k :: 0 <= j < k < |obs| ==> obs[j].date != obs[k].date || obs[j].instrument != obs[k].instrument
  }

  /** Observation `k` is the latest usable one of the instrument up to `when`. */
  ghost predicate Latest(obs: seq<Observation>, when: nat, instrument: nat, k: nat) {
    && k < |obs| && Observes(obs[k], when, instrument)
    && forall j :: 0 <= j < |obs| && Observes(obs[j], when, instrument) ==> obs[j].date.value <= obs[k].date.value
  }

  /** `v` is the factor of the latest usable observation up to `when`, or missing if there is none. */
  ghost predicate LastKnown(obs: seq<Observation>, when: nat, instrument: nat, v: Option<real>) {
    match v
    case None => forall j :: 0 <= j < |obs| ==> !Observes(obs[j], when, instrument)
    case Some(x) => exists k: nat :: Latest(obs, when, instrument, k) && Usable(obs[k].factor) == Some(x)
  }

  predicate Positive(f: Factor) {
    f.Finite? && f.value > 0.0
  }

  predicate PositiveOn(o: Observation, instrument: nat, date: nat) {
    o.instrument == instrument && o.date == Some(date) && Positive(o.factor)
  }

  /** The number was observed on date `d`, and no other positive one from then up to the query. */
  ghost predicate KnownSince(obs: seq<Observation>, when: nat, instrument: nat, x: real, d: nat) {
    && d <= when && Observation(Some(d), instrument, Finite(x)) in obs
    && forall o, e: nat :: o in obs && PositiveOn(o, instrument, e) ==> e <= d || when < e
  }

  /** A known factor is a finite positive number that was observed for the instrument up to the query, and no later
      observation up to the query was finite and positive; it is missing exactly if there was never one. */
  lemma {:induction false} LastKnownMeans(obs: seq<Observation>, when: nat, instrument: nat, v: Option<real>)
    requires LastKnown(obs, when, instrument, v)
    ensures v.Some? ==> v.value > 0.0
    ensures v.Some? ==> exists d: nat :: KnownSince(obs, when, instrument, v.value, d)
    ensures v.None? ==> forall o, e: nat :: o in obs && PositiveOn(o, instrument, e) ==> when < e
  {
    forall o, e: nat | o in obs && PositiveOn(o, instrument, e) && e <= when
      ensures exists j :: 0 <= j < |obs| && obs[j] == o && Observes(o, when, instrument)
    {
      var j :| 0 <= j < |obs| && obs[j] == o;
    }
    if v.Some? {
      var k: nat :| Latest(obs, when, instrument, k) && Usable(obs[k].factor) == v;
      var d := obs[k].date.value;
      assert obs[k] == Observation(Some(d), instrument, Finite(v.value)) && obs[k] in obs;
      assert KnownSince(obs, when, instrument, v.value, d);
    }
  }

  /** Both histories hold the same observations up to `when`. */
  ghost predicate AgreeUpTo(a: seq<Observation>, b: seq<Observation>, when: nat) {
    forall o: Observation :: o.date.Some? && o.date.value <= when ==> (o in a <==> o in b)
  }

  lemma {:induction false} Shared(a: seq<Observation>, b: seq<Observation>, when: nat, k: nat) returns (m: nat)
    requires AgreeUpTo(a, b, when) && k < |a| && a[k].date.Some? && a[k].date.value <= when
    ensures m < |b| && b[m] == a[k]
  {
    assert a[k] in a;
    m :| m < |b| && b[m] == a[k];
  }

  lemma {:induction false} LatestIsShared(a: seq<Observation>, b: seq<Observation>, when: nat, instrument: nat,
                                          k: nat, w: Option<real>)
    requires NoDuplicates(a) || NoDuplicates(b)
    requires AgreeUpTo(a, b, when) && Latest(a, when, instrument, k) && LastKnown(b, when, instrument, w)
    ensures w == Usable(a[k].factor)
  {
    var m := Shared(a, b, when, k);
    assert Observes(b[m], when, instrument);
    hide Usable;
    var j: nat :| Latest(b, when, instrument, j) && Usable(b[j].factor) == w;
    var n := Shared(b, a, when, j);
    hide AgreeUpTo;
  }

  lemma {:induction false} KnownInBoth(a: seq<Observation>, b: seq<Observation>, when: nat, instrument: nat,
                                       v: Option<real>, w: Option<real>)
    requires NoDuplicates(a) || NoDuplicates(b)
    requires AgreeUpTo(a, b, when) && v.Some?
    requires LastKnown(a, when, instrument, v) && LastKnown(b, when, instrument, w)
    ensures v == w
  {
    hide Usable, NoDuplicates;
    var k: nat :| Latest(a, when, instrument, k) && Usable(a[k].factor) == v;
    LatestIsShared(a, b, when, instrument, k, w);
  }

  /** The answer is unique, and depends on nothing observed after the query. */
  lemma {:induction false} NoFuture(a: seq<Observation>, b: seq<Observation>, when: nat, instrument: nat,
                                    v: Option<real>, w: Option<real>)
    requires NoDuplicates(a) && AgreeUpTo(a, b, when)
    requires LastKnown(a, when, instrument, v) && LastKnown(b, when, instrument, w)
    ensures v == w
  {
    hide LastKnown, NoDuplicates;
    if v.Some? {
      KnownInBoth(a, b, when, instrument, v, w);
    } else if w.Some? {
      KnownInBoth(b, a, when, instrument, w, v);
    }
  }

  /** A known factor survives any stretch without a usable observation. */
  lemma {:induction false} SurvivesMissingQuotes(obs: seq<Observation>, earlier: nat, when: nat, instrument: nat,
                                                 v: Option<real>)
    requires earlier <= when && LastKnown(obs, earlier, instrument, v)
    requires forall j :: 0 <= j < |obs| && Observes(obs[j], when, instrument) ==> obs[j].date.value <= earlier
    ensures LastKnown(obs, when, instrument, v)
  {
    assert forall j :: 0 <= j < |obs| ==>
      (Observes(obs[j], when, instrument) <==> Observes(obs[j], earlier, instrument));
    if v.Some? {
      var k: nat :| Latest(obs, earlier, instrument, k) && Usable(obs[k].factor) == v;
      assert Latest(obs, when, instrument, k);
    }
  }

  // ----- the table -----

  /** The usable factor observed on one date, if any. */
  function Observed(obs: seq<Observation>, date: nat, instrument: nat): Option<real> {
    if obs == [] then None
    else
      var last := obs[|obs| - 1];
      if last.date == Some(date) && last.instrument == instrument then Usable(last.factor)
      else Observed(obs[..|obs| - 1], date, instrument)
  }

  lemma {:induction false} ObservedIs(obs: seq<Observation>, date: nat, instrument: nat)
    requires NoDuplicates(obs)
    ensures Observed(obs, date, instrument).Some? ==>
      exists k :: 0 <= k < |obs| && obs[k].date == Some(date) && obs[k].instrument == instrument
        && Usable(obs[k].factor) == Observed(obs, date, instrument)
    ensures Observed(obs, date, instrument).None? ==>
      forall k :: 0 <= k < |obs| && obs[k].date == Some(date) && obs[k].instrument == instrument ==>
        Usable(obs[k].factor).None?
  {
    hide Usable;
    if obs != [] {
      var front, last := obs[..|obs| - 1], obs[|obs| - 1];
      ObservedIs(front, date, instrument);
      assert forall k :: 0 <= k < |front| ==> front[k] == obs[k];
      assert obs[|front|] == last;
    }
  }

  /** A step of the forward fill: what the date itself says, or what was known before. */
  lemma {:induction false} FillStep(obs: seq<Observation>, before: Option<nat>, date: nat, instrument: nat,
                                    known: Option<real>, here: Option<real>)
    requires KnownTimes(obs) && NoDuplicates(obs) && here == Observed(obs, date, instrument)
    requires before.Some? ==> before.value < date && LastKnown(obs, before.value, instrument, known)
    requires before.None? ==> known == None
    requires forall k :: 0 <= k < |obs| && obs[k].date.value <= date ==>
      obs[k].date.value == date || (before.Some? && obs[k].date.value <= before.value)
    ensures LastKnown(obs, date, instrument, if here.Some? then here else known)
  {
    hide Usable;
    ObservedIs(obs, date, instrument);
    if here.Some? {
      var k :| 0 <= k < |obs| && obs[k].date == Some(date) && obs[k].instrument == instrument
               && Usable(obs[k].factor) == here;
      assert Latest(obs, date, instrument, k);
    } else if before.Some? {
      SurvivesMissingQuotes(obs, before.value, date, instrument, known);
    }
  }

  function DatesOf(obs: seq<Observation>): set<nat> {
    set k | 0 <= k < |obs| && obs[k].date.Some? :: obs[k].date.value
  }

  function InstrumentsOf(obs: seq<Observation>): set<nat> {
    set k | 0 <= k < |obs| :: obs[k].instrument
  }

  type Table = seq<map<nat, Option<real>>>

  /** Row `j` of the table knows, for every instrument of the history, its last known factor on that date. */
  ghost predicate RowKnows(obs: seq<Observation>, date: nat, row: map<nat, Option<real>>) {
    row.Keys == InstrumentsOf(obs) && forall i :: i in row ==> LastKnown(obs, date, i, row[i])
  }

  /** Nothing was observed between consecutive dates of the table. */
  lemma {:induction false} DatesAreConsecutive(obs: seq<Observation>, dates: seq<nat>, j: nat, k: nat)
    requires Lists(dates, DatesOf(obs)) && j < |dates| && k < |obs| && obs[k].date.Some?
    requires obs[k].date.value <= dates[j]
    ensures obs[k].date.value == dates[j] || (j > 0 && obs[k].date.value <= dates[j - 1])
  {
    assert obs[k].date.value in DatesOf(obs);
    assert obs[k].date.value in dates;
    var m :| 0 <= m < |dates| && dates[m] == obs[k].date.value;
    PositionFollowsValue(dates, m, j);
  }

  lemma {:induction false} PositionFollowsValue(dates: seq<nat>, m: nat, j: nat)
    requires Sorted(dates) && m < |dates| && j < |dates| && dates[m] <= dates[j]
    ensures m == j || (j > 0 && dates[m] <= dates[j - 1])
  {
  }

  /** What one date says about every instrument of the history. */
  function Unstacked(obs: seq<Observation>, date: nat): map<nat, Option<real>> {
    map i | i in InstrumentsOf(obs) :: Observed(obs, date, i)
  }

  /** Gaps of a row are filled from the row before. */
  function Filled(before: map<nat, Option<real>>, row: map<nat, Option<real>>): map<nat, Option<real>> {
    map i | i in row :: if row[i].Some? || i !in before then row[i] else before[i]
  }

  lemma {:induction false} FillRow(obs: seq<Observation>, dates: seq<nat>, j: nat, before: map<nat, Option<real>>)
    requires KnownTimes(obs) && NoDuplicates(obs) && Lists(dates, DatesOf(obs)) && j < |dates|
    requires if j > 0 then RowKnows(obs, dates[j - 1], before) else before == map[]
    ensures RowKnows(obs, dates[j], Filled(before, Unstacked(obs, dates[j])))
  {
    forall k | 0 <= k < |obs| && obs[k].date.value <= dates[j]
      ensures obs[k].date.value == dates[j] || (j > 0 && obs[k].date.value <= dates[j - 1])
    {
      DatesAreConsecutive(obs, dates, j, k);
    }
    var row := Filled(before, Unstacked(obs, dates[j]));
    forall i | i in row
      ensures LastKnown(obs, dates[j], i, row[i])
    {
      FillStep(obs, if j > 0 then Some(dates[j - 1]) else None, dates[j], i,
               if j > 0 && i in before then before[i] else None, Observed(obs, dates[j], i));
    }
  }

  class PreparedFactorHistory {
    const dates: seq<nat>
    const table: Table

    ghost predicate Valid(obs: seq<Observation>) {
      && KnownTimes(obs) && NoDuplicates(obs) && Lists(dates, DatesOf(obs)) && |table| == |dates|
      && forall j :: 0 <= j < |dates| ==> RowKnows(obs, dates[j], table[j])
    }

    constructor (sorted: seq<nat>, rows: Table)
      ensures dates == sorted && table == rows
    {
      dates, table := sorted, rows;
    }

    /** The last known factor of every instrument asked for, whether or not the history mentions it. */
    method Lookup(when: Option<nat>, instruments: seq<nat>, ghost obs: seq<Observation>)
      returns (r: Result<seq<Option<real>>, HistoryError>)
      requires Valid(obs)
      ensures r.Err? <==> when.None?
      ensures r.Err? ==> r.error == UnknownSignalTime
      ensures r.Ok? ==> |r.value| == |instruments|
      ensures r.Ok? ==>
        forall n :: 0 <= n < |instruments| ==> LastKnown(obs, when.value, instruments[n], r.value[n])
    {
      if when.None? {
        return Err(UnknownSignalTime);
      }
      var count := CrossSections.CountUpTo(dates, when.value);
      forall n | 0 <= n < |instruments|
        ensures LastKnown(obs, when.value, instruments[n],
          if count > 0 && instruments[n] in table[count - 1] then table[count - 1][instruments[n]] else None)
      {
        AnswerIs(obs, dates, table, when.value, count, instruments[n]);
      }
      hide LastKnown;
      r := Ok(seq(|instruments|, n requires 0 <= n < |instruments| =>
        if count > 0 && instruments[n] in table[count - 1] then table[count - 1][instruments[n]] else None));
    }
  }

  lemma {:induction false} AnswerIs(obs: seq<Observation>, dates: seq<nat>, table: Table, when: nat, count: nat,
                                    instrument: nat)
    requires KnownTimes(obs) && Lists(dates, DatesOf(obs)) && |table| == |dates| && count <= |dates|
    requires forall j :: 0 <= j < |dates| ==> RowKnows(obs, dates[j], table[j])
    requires forall j :: 0 <= j < count ==> dates[j] <= when
    requires forall j :: count <= j < |dates| ==> dates[j] > when
    ensures LastKnown(obs, when, instrument,
      if count > 0 && instrument in table[count - 1] then table[count - 1][instrument] else None)
  {
    forall k | 0 <= k < |obs| && Observes(obs[k], when, instrument)
      ensures instrument in InstrumentsOf(obs) && count > 0 && obs[k].date.value <= dates[count - 1]
    {
      assert obs[k].date.value in DatesOf(obs);
      var m :| 0 <= m < |dates| && dates[m] == obs[k].date.value;
      assert m < count;
    }
    if count > 0 && instrument in table[count - 1] {
      assert RowKnows(obs, dates[count - 1], table[count - 1]);
      SurvivesMissingQuotes(obs, dates[count - 1], when, instrument, table[count - 1][instrument]);
    } else if count > 0 {
      assert RowKnows(obs, dates[count - 1], table[count - 1]);
      assert instrument !in InstrumentsOf(obs);
    }
  }

  method Prepare(obs: seq<Observation>) returns (r: Result<PreparedFactorHistory, HistoryError>)
    ensures r.Ok? <==> KnownTimes(obs) && NoDuplicates(obs)
    ensures r.Err? ==> r.error == if KnownTimes(obs) then DuplicateObservation else UnknownObservationTime
    ensures r.Ok? ==> r.value.Valid(obs)
  {
    if exists k :: 0 <= k < |obs| && obs[k].date.None? {
      return Err(UnknownObservationTime);
    }
    if exists j, k :: 0 <= j < k < |obs| && obs[j].date == obs[k].date && obs[j].instrument == obs[k].instrument {
      return Err(DuplicateObservation);
    }
    var dates := Sort(DatesOf(obs));
    var table: Table := seq(|dates|, j requires 0 <= j < |dates| => Unstacked(obs, dates[j]));
    hide NoDuplicates, Lists, Unstacked, Filled, RowKnows;
    for j := 0 to |dates|
      invariant |table| == |dates|
      invariant forall m :: 0 <= m < j ==> RowKnows(obs, dates[m], table[m])
      invariant forall m :: j <= m < |dates| ==> table[m] == Unstacked(obs, dates[m])
    {
      var before := if j > 0 then table[j - 1] else map[];
      FillRow(obs, dates, j, before);
      table := table[j := Filled(before, table[j])];
    }
    var history := new PreparedFactorHistory(dates, table);
    r := Ok(history);
  }
}
