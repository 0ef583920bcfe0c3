/** Point-in-time cross sections of one panel: the naive filter-then-latest lookup, and the prepared index that answers
    the same queries from rows sorted once.
 */
module CrossSections {
  import opened Values

  datatype Row = Row(date: nat, instrument: nat, cells: map<string, Option<real>>)

  datatype Frame = Frame(columns: set<string>, rows: seq<Row>)

  datatype LookupError = MissingColumn | NoData

  type Section = seq<(nat, Option<real>)>

  /** Index order: by date, then by instrument. */
  predicate NotAfter(a: Row, b: Row) {
    a.date < b.date || (a.date == b.date && a.instrument <= b.instrument)
  }

  // ----- stable sorting -----

  function Insert(rows: seq<Row>, row: Row): seq<Row> {
    if rows == [] then [row]
    else if NotAfter(rows[0], row) then [rows[0]] + Insert(rows[1..], row)
    else [row] + rows
  }

  function SortedRows(rows: seq<Row>): seq<Row> {
    if rows == [] then [] else Insert(SortedRows(rows[..|rows| - 1]), rows[|rows| - 1])
  }

  ghost predicate InOrder(rows: seq<Row>) {
    forall i, j :: 0 <= i < j < |rows| ==> NotAfter(rows[i], rows[j])
  }

  lemma {:induction false} InsertAdds(rows: seq<Row>, row: Row)
    ensures multiset(Insert(rows, row)) == multiset(rows) + multiset{row}
  {
    if rows != [] {
      InsertAdds(rows[1..], row);
      assert rows == [rows[0]] + rows[1..];
    }
  }

  lemma {:induction false} InsertHolds(rows: seq<Row>, row: Row, k: nat)
    requires k < |Insert(rows, row)|
    ensures Insert(rows, row)[k] == row || Insert(rows, row)[k] in rows
  {
    InsertAdds(rows, row);
    hide Insert;
    assert Insert(rows, row)[k] in multiset(Insert(rows, row));
  }

  lemma {:induction false} OrderedHead(head: Row, tail: seq<Row>)
    requires InOrder(tail) && forall k :: 0 <= k < |tail| ==> NotAfter(head, tail[k])
    ensures InOrder([head] + tail)
  {
    hide NotAfter;
    var all := [head] + tail;
    assert forall k :: 0 < k < |all| ==> all[k] == tail[k - 1];
  }

  lemma {:induction false} InsertKeepsOrder(rows: seq<Row>, row: Row)
    requires InOrder(rows)
    ensures InOrder(Insert(rows, row))
    ensures multiset(Insert(rows, row)) == multiset(rows) + multiset{row}
  {
    InsertAdds(rows, row);
    if rows != [] {
      var rest := rows[1..];
      if NotAfter(rows[0], row) {
        InsertKeepsOrder(rest, row);
        var tail := Insert(rest, row);
        forall k | 0 <= k < |tail|
          ensures NotAfter(rows[0], tail[k])
        {
          InsertHolds(rest, row, k);
          if tail[k] != row {
            var m :| 0 <= m < |rest| && rest[m] == tail[k];
            assert rest[m] == rows[m + 1];
          }
        }
        OrderedHead(rows[0], tail);
      } else {
        forall k | 0 <= k < |rows|
          ensures NotAfter(row, rows[k])
        {
          assert k > 0 ==> NotAfter(rows[0], rows[k]);
        }
        OrderedHead(row, rows);
      }
    }
  }

  lemma {:induction false} SortingIsAPermutation(rows: seq<Row>)
    ensures InOrder(SortedRows(rows)) && multiset(SortedRows(rows)) == multiset(rows)
  {
    if rows != [] {
      var front, last := rows[..|rows| - 1], rows[|rows| - 1];
      SortingIsAPermutation(front);
      InsertKeepsOrder(SortedRows(front), last);
      assert rows == front + [last];
    }
  }

  /** Rows observed at or before `when`, in their given order. */
  function UpTo(rows: seq<Row>, when: nat): seq<Row> {
    if rows == [] then [] else (if rows[0].date <= when then [rows[0]] else []) + UpTo(rows[1..], when)
  }

  lemma {:induction false} UpToHolds(rows: seq<Row>, when: nat)
    ensures forall r :: r in UpTo(rows, when) ==> r in rows && r.date <= when
  {
    if rows != [] {
      UpToHolds(rows[1..], when);
      assert rows == [rows[0]] + rows[1..];
    }
  }

  lemma {:induction false} UpToConcat(a: seq<Row>, b: seq<Row>, when: nat)
    ensures UpTo(a + b, when) == UpTo(a, when) + UpTo(b, when)
    decreases |a|
  {
    if a == [] {
      assert a + b == b;
    } else {
      var w := a + b;
      assert w[0] == a[0] && w[1..] == a[1..] + b;
      UpToConcat(a[1..], b, when);
      UpToHead(a, when);
      UpToHead(w, when);
      hide UpTo;
      Regroup([a[0]], UpTo(a[1..], when), UpTo(b, when));
    }
  }

  lemma {:induction false} Regroup(x: seq<Row>, y: seq<Row>, z: seq<Row>)
    ensures x + (y + z) == x + y + z
  {
  }

  lemma {:induction false} UpToHead(rows: seq<Row>, when: nat)
    requires rows != []
    ensures UpTo(rows, when)
         == if rows[0].date <= when then [rows[0]] + UpTo(rows[1..], when) else UpTo(rows[1..], when)
  {
  }

  lemma {:induction false} UpToHas(rows: seq<Row>, when: nat, row: Row)
    requires row in rows && row.date <= when
    ensures row in UpTo(rows, when)
  {
    if row != rows[0] {
      assert rows == [rows[0]] + rows[1..];
      UpToHas(rows[1..], when, row);
    }
  }

  lemma {:induction false} InsertThenCut(rows: seq<Row>, row: Row, when: nat)
    requires InOrder(rows)
    ensures UpTo(Insert(rows, row), when)
         == if row.date <= when then Insert(UpTo(rows, when), row) else UpTo(rows, when)
  {
    if rows != [] {
      var rest := rows[1..];
      if NotAfter(rows[0], row) {
        InsertThenCut(rest, row, when);
        var whole := [rows[0]] + Insert(rest, row);
        assert whole[1..] == Insert(rest, row);
        if rows[0].date <= when {
          assert UpTo(rows, when) == [rows[0]] + UpTo(rest, when);
          assert UpTo(rows, when)[1..] == UpTo(rest, when);
        }
      } else {
        assert ([row] + rows)[1..] == rows;
        if row.date <= when {
          if rows[0].date <= when {
            assert UpTo(rows, when)[0] == rows[0];
          } else {
            forall r | r in rows
              ensures r.date > when
            {
              var k :| 0 <= k < |rows| && rows[k] == r;
              assert k > 0 ==> NotAfter(rows[0], rows[k]);
            }
            NothingBefore(rows, when);
          }
        }
      }
    }
  }

  lemma {:induction false} NothingBefore(rows: seq<Row>, when: nat)
    requires forall r :: r in rows ==> r.date > when
    ensures UpTo(rows, when) == []
  {
    if rows != [] {
      assert rows[0] in rows;
      NothingBefore(rows[1..], when);
    }
  }

  lemma {:induction false} UpToAfter(rows: seq<Row>, last: Row, when: nat)
    ensures UpTo(rows + [last], when) == if last.date <= when then UpTo(rows, when) + [last] else UpTo(rows, when)
  {
    UpToConcat(rows, [last], when);
    assert [last][1..] == [];
  }

  lemma {:induction false} SortedAfter(rows: seq<Row>, last: Row)
    ensures SortedRows(rows + [last]) == Insert(SortedRows(rows), last)
  {
    assert (rows + [last])[..|rows + [last]| - 1] == rows;
  }

  lemma {:induction false} SortThenCutStep(rows: seq<Row>, last: Row, when: nat)
    requires UpTo(SortedRows(rows), when) == SortedRows(UpTo(rows, when))
    ensures UpTo(SortedRows(rows + [last]), when) == SortedRows(UpTo(rows + [last], when))
  {
    hide UpTo, Insert, InOrder, SortedRows;
    SortedInOrder(rows);
    InsertThenCut(SortedRows(rows), last, when);
    SortedAfter(rows, last);
    UpToAfter(rows, last, when);
    SortedAfter(UpTo(rows, when), last);
  }

  /** Sorting and cutting at a date commute. */
  lemma {:induction false} SortThenCut(rows: seq<Row>, when: nat)
    ensures UpTo(SortedRows(rows), when) == SortedRows(UpTo(rows, when))
  {
    if rows != [] {
      var front, last := rows[..|rows| - 1], rows[|rows| - 1];
      SortThenCut(front, when);
      SortThenCutStep(front, last, when);
      assert rows == front + [last];
      hide UpTo, SortedRows;
    }
  }

  lemma {:induction false} SortedInOrder(rows: seq<Row>)
    ensures InOrder(SortedRows(rows))
  {
    SortingIsAPermutation(rows);
  }

  // ----- the naive lookup -----

  function MaxDate(rows: seq<Row>): (latest: nat)
    requires rows != []
  {
    if |rows| == 1 then rows[0].date
    else
      var earlier := MaxDate(rows[..|rows| - 1]);
      if rows[|rows| - 1].date >= earlier then rows[|rows| - 1].date else earlier
  }

  function AtDate(rows: seq<Row>, date: nat): seq<Row> {
    if rows == [] then [] else (if rows[0].date == date then [rows[0]] else []) + AtDate(rows[1..], date)
  }

  function SectionOf(rows: seq<Row>, column: string): Section {
    seq(|rows|, i requires 0 <= i < |rows| =>
      (rows[i].instrument, if column in rows[i].cells then rows[i].cells[column] else None))
  }

  /** Filter everything up to the query time, then keep the latest date. */
  function CrossSection(frame: Frame, when: nat, column: string): Result<Section, LookupError> {
    if column !in frame.columns then Err(MissingColumn)
    else
      var available := UpTo(SortedRows(frame.rows), when);
      if available == [] then Err(NoData) else Ok(SectionOf(AtDate(available, MaxDate(available)), column))
  }

  /** A query sees nothing that was observed after its own time: panels that agree up to `when` answer alike. */
  lemma {:induction false} NoFuture(f: Frame, g: Frame, when: nat, column: string)
    requires f.columns == g.columns && UpTo(f.rows, when) == UpTo(g.rows, when)
    ensures CrossSection(f, when, column) == CrossSection(g, when, column)
  {
    SortThenCut(f.rows, when);
    SortThenCut(g.rows, when);
    hide UpTo, SortedRows;
  }

  lemma {:induction false} MaxDateIsMax(rows: seq<Row>)
    requires rows != []
    ensures exists i :: 0 <= i < |rows| && rows[i].date == MaxDate(rows)
    ensures forall i :: 0 <= i < |rows| ==> rows[i].date <= MaxDate(rows)
  {
    if |rows| == 1 {
      assert rows[0].date == MaxDate(rows);
    } else {
      var front := rows[..|rows| - 1];
      MaxDateIsMax(front);
      var i :| 0 <= i < |front| && front[i].date == MaxDate(front);
      assert rows[i] == front[i];
      assert forall k :: 0 <= k < |front| ==> rows[k] == front[k];
      var newest := if rows[|front|].date >= MaxDate(front) then |front| else i;
      assert rows[newest].date == MaxDate(rows);
    }
  }

  lemma {:induction false} AtDateHolds(rows: seq<Row>, date: nat, row: Row)
    ensures multiset(AtDate(rows, date))[row] == if row.date == date then multiset(rows)[row] else 0
  {
    if rows != [] {
      AtDateHolds(rows[1..], date, row);
      assert rows == [rows[0]] + rows[1..];
      assert multiset(rows)[row] == multiset(rows[1..])[row] + if rows[0] == row then 1 else 0;
    }
  }

  lemma {:induction false} UpToCounts(rows: seq<Row>, when: nat, row: Row)
    ensures multiset(UpTo(rows, when))[row] == if row.date <= when then multiset(rows)[row] else 0
  {
    if rows != [] {
      UpToCounts(rows[1..], when, row);
      assert rows == [rows[0]] + rows[1..];
      assert multiset(rows)[row] == multiset(rows[1..])[row] + if rows[0] == row then 1 else 0;
    }
  }

  ghost predicate IsLatest(rows: seq<Row>, when: nat, latest: nat) {
    && latest <= when
    && (exists i :: 0 <= i < |rows| && rows[i].date == latest)
    && forall i :: 0 <= i < |rows| && rows[i].date <= when ==> rows[i].date <= latest
  }

  /** There is no answer exactly when nothing has been observed yet. */
  lemma {:induction false} NoDataExactly(frame: Frame, when: nat, column: string)
    requires column in frame.columns
    ensures CrossSection(frame, when, column) == Err(NoData) <==> forall r :: r in frame.rows ==> r.date > when
  {
    var sorted := SortedRows(frame.rows);
    SortingIsAPermutation(frame.rows);
    SameElements(sorted, frame.rows);
    hide SortedRows;
    if r :| r in frame.rows && r.date <= when {
      UpToHas(sorted, when, r);
    } else {
      NothingBefore(sorted, when);
    }
  }

  /** An answer holds exactly the panel's rows of the latest date at or before the query, by instrument. */
  lemma {:induction false} SectionMeaning(frame: Frame, when: nat, column: string) returns (latest: nat, rows: seq<Row>)
    requires CrossSection(frame, when, column).Ok?
    ensures
      var section := CrossSection(frame, when, column).value;
      && |section| == |rows|
      && forall i :: 0 <= i < |rows| ==>
        section[i] == (rows[i].instrument, if column in rows[i].cells then rows[i].cells[column] else None)
    ensures IsLatest(frame.rows, when, latest)
    ensures forall row :: multiset(rows)[row] == if row.date == latest then multiset(frame.rows)[row] else 0
    ensures forall i, j :: 0 <= i < j < |rows| ==> rows[i].instrument <= rows[j].instrument
  {
    var sorted := SortedRows(frame.rows);
    var available := UpTo(sorted, when);
    SortingIsAPermutation(frame.rows);
    SameElements(sorted, frame.rows);
    MaxDateIsMax(available);
    latest := MaxDate(available);
    rows := AtDate(available, latest);
    var k :| 0 <= k < |available| && available[k].date == latest;
    hide SortedRows, UpTo, MaxDate, AtDate;
    assert available[k] in available;
    LatestOf(frame.rows, sorted, when, latest, available[k]);
    SameRows(frame.rows, sorted, when, latest);
    CutThenDate(sorted, when, latest);
    AtDateInOrder(sorted, latest);
  }

  lemma {:induction false} SameRows(rows: seq<Row>, sorted: seq<Row>, when: nat, latest: nat)
    requires multiset(sorted) == multiset(rows) && latest <= when
    ensures forall row ::
      multiset(AtDate(UpTo(sorted, when), latest))[row] == if row.date == latest then multiset(rows)[row] else 0
  {
    forall row
      ensures multiset(AtDate(UpTo(sorted, when), latest))[row] == if row.date == latest then multiset(rows)[row] else 0
    {
      AtDateHolds(UpTo(sorted, when), latest, row);
      UpToCounts(sorted, when, row);
    }
  }

  lemma {:induction false} AtDateInOrder(rows: seq<Row>, date: nat)
    requires InOrder(rows)
    ensures forall i, j :: 0 <= i < j < |AtDate(rows, date)| ==>
      AtDate(rows, date)[i].instrument <= AtDate(rows, date)[j].instrument
    ensures forall i :: 0 <= i < |AtDate(rows, date)| ==> AtDate(rows, date)[i].date == date
    ensures forall i :: 0 <= i < |AtDate(rows, date)| ==> AtDate(rows, date)[i] in rows
  {
    if rows != [] {
      AtDateInOrder(rows[1..], date);
      var rest := AtDate(rows[1..], date);
      forall i | 0 <= i < |rest|
        ensures NotAfter(rows[0], rest[i]) && rest[i] in rows
      {
        var k :| 0 <= k < |rows[1..]| && rows[1..][k] == rest[i];
        assert rows[k + 1] == rest[i];
      }
    }
  }

  lemma {:induction false} SameElements(a: seq<Row>, b: seq<Row>)
    requires multiset(a) == multiset(b)
    ensures forall r :: r in a <==> r in b
  {
    forall r
      ensures r in a <==> r in b
    {
      assert r in a <==> r in multiset(a);
      assert r in b <==> r in multiset(b);
    }
  }

  lemma {:induction false} LatestOf(rows: seq<Row>, sorted: seq<Row>, when: nat, latest: nat, newest: Row)
    requires forall r :: r in sorted <==> r in rows
    requires newest in UpTo(sorted, when) && newest.date == latest
    requires forall i :: 0 <= i < |UpTo(sorted, when)| ==> UpTo(sorted, when)[i].date <= latest
    ensures IsLatest(rows, when, latest)
  {
    UpToHolds(sorted, when);
    forall i | 0 <= i < |rows| && rows[i].date <= when
      ensures rows[i].date <= latest
    {
      assert rows[i] in rows;
      UpToHas(sorted, when, rows[i]);
    }
  }

  // ----- the prepared lookup -----

  function Dates(rows: seq<Row>): seq<nat> {
    if rows == [] then []
    else
      var earlier, date := Dates(rows[..|rows| - 1]), rows[|rows| - 1].date;
      if earlier != [] && earlier[|earlier| - 1] == date then earlier else earlier + [date]
  }

  lemma {:induction false} DatesAreSorted(rows: seq<Row>)
    requires InOrder(rows)
    ensures Increasing(Dates(rows))
    ensures rows != [] ==> Dates(rows) != [] && Dates(rows)[|Dates(rows)| - 1] == rows[|rows| - 1].date
    ensures forall i :: 0 <= i < |rows| ==> rows[i].date in Dates(rows)
    ensures forall d :: d in Dates(rows) ==> exists i :: 0 <= i < |rows| && rows[i].date == d
  {
    if rows != [] {
      var front := rows[..|rows| - 1];
      DatesAreSorted(front);
      assert forall i :: 0 <= i < |front| ==> front[i] == rows[i];
      assert front != [] ==> front[|front| - 1].date <= rows[|front|].date;
      hide InOrder, NotAfter;
    }
  }

  /** Rows of a past date are not affected by the cut. */
  lemma {:induction false} CutThenDate(rows: seq<Row>, when: nat, date: nat)
    requires date <= when
    ensures AtDate(UpTo(rows, when), date) == AtDate(rows, date)
  {
    if rows != [] {
      CutThenDate(rows[1..], when, date);
      if rows[0].date <= when {
        assert ([rows[0]] + UpTo(rows[1..], when))[1..] == UpTo(rows[1..], when);
      } else {
        assert UpTo(rows, when) == UpTo(rows[1..], when);
        assert AtDate(rows, date) == AtDate(rows[1..], date);
      }
    }
  }

  ghost predicate Increasing(dates: seq<nat>) {
    forall i, j :: 0 <= i < j < |dates| ==> dates[i] < dates[j]
  }

  /** How many of the sorted dates are at or before `when`. */
  method CountUpTo(dates: seq<nat>, when: nat) returns (count: nat)
    requires Increasing(dates)
    ensures count <= |dates|
    ensures forall i :: 0 <= i < count ==> dates[i] <= when
    ensures forall i :: count <= i < |dates| ==> dates[i] > when
  {
    var lo, hi := 0, |dates|;
    while lo < hi
      invariant 0 <= lo <= hi <= |dates|
      invariant forall i :: 0 <= i < lo ==> dates[i] <= when
      invariant forall i :: hi <= i < |dates| ==> dates[i] > when
    {
      var mid := (lo + hi) / 2;
      if dates[mid] <= when {
        lo := mid + 1;
      } else {
        hi := mid;
      }
    }
    count := lo;
  }

  class PreparedCrossSections {
    const columns: set<string>
    const rows: seq<Row>
    const dates: seq<nat>

    ghost predicate Valid(frame: Frame) {
      columns == frame.columns && rows == SortedRows(frame.rows) && dates == Dates(rows)
    }

    constructor (frame: Frame)
      ensures Valid(frame)
    {
      columns := frame.columns;
      rows := SortedRows(frame.rows);
      dates := Dates(SortedRows(frame.rows));
    }

    /** The prepared index answers every query as the naive lookup does, failures included. */
    method Lookup(when: nat, column: string, ghost frame: Frame) returns (r: Result<Section, LookupError>)
      requires Valid(frame)
      ensures r == CrossSection(frame, when, column)
    {
      if column !in columns {
        return Err(MissingColumn);
      }
      SortingIsAPermutation(frame.rows);
      DatesAreSorted(rows);
      var count := CountUpTo(dates, when);
      if count == 0 {
        NothingBeforeDates(rows, when);
        return Err(NoData);
      }
      LatestIsLast(rows, when, count);
      var latest := dates[count - 1];
      CutThenDate(rows, when, latest);
      r := Ok(SectionOf(AtDate(rows, latest), column));
    }
  }

  lemma {:induction false} NothingBeforeDates(rows: seq<Row>, when: nat)
    requires InOrder(rows) && forall i :: 0 <= i < |Dates(rows)| ==> Dates(rows)[i] > when
    ensures UpTo(rows, when) == []
  {
    DatesAreSorted(rows);
    forall r | r in rows
      ensures r.date > when
    {
      var k :| 0 <= k < |rows| && rows[k] == r;
      assert rows[k].date in Dates(rows);
    }
    NothingBefore(rows, when);
  }

  /** The last date of the slice is the latest date of the available rows. */
  lemma {:induction false} LatestIsLast(rows: seq<Row>, when: nat, count: nat)
    requires InOrder(rows) && 0 < count <= |Dates(rows)|
    requires Dates(rows)[count - 1] <= when
    requires forall i :: count <= i < |Dates(rows)| ==> Dates(rows)[i] > when
    ensures UpTo(rows, when) != [] && MaxDate(UpTo(rows, when)) == Dates(rows)[count - 1]
  {
    hide UpTo, Dates, InOrder, MaxDate, Increasing;
    DatesAreSorted(rows);
    var dates := Dates(rows);
    var latest := dates[count - 1];
    assert latest in dates;
    var k :| 0 <= k < |rows| && rows[k].date == latest;
    AvailableHas(rows, when, k);
    var m := NewestAvailable(rows, when);
    DateWithin(dates, when, count, rows[m].date);
  }

  lemma {:induction false} AvailableHas(rows: seq<Row>, when: nat, k: nat)
    requires k < |rows| && rows[k].date <= when
    ensures UpTo(rows, when) != [] && rows[k].date <= MaxDate(UpTo(rows, when))
  {
    UpToHas(rows, when, rows[k]);
    var available := UpTo(rows, when);
    var j :| 0 <= j < |available| && available[j] == rows[k];
    MaxDateIsMax(available);
  }

  lemma {:induction false} NewestAvailable(rows: seq<Row>, when: nat) returns (m: nat)
    requires UpTo(rows, when) != []
    ensures m < |rows| && rows[m].date == MaxDate(UpTo(rows, when)) <= when
  {
    var available := UpTo(rows, when);
    MaxDateIsMax(available);
    var i :| 0 <= i < |available| && available[i].date == MaxDate(available);
    UpToHolds(rows, when);
    assert available[i] in available;
    m :| m < |rows| && rows[m] == available[i];
  }

  /** A listed date at or before `when` is not after the last one of the slice. */
  lemma {:induction false} DateWithin(dates: seq<nat>, when: nat, count: nat, date: nat)
    requires Increasing(dates) && 0 < count <= |dates| && date in dates && date <= when
    requires forall i :: count <= i < |dates| ==> dates[i] > when
    ensures date <= dates[count - 1]
  {
    var n :| 0 <= n < |dates| && dates[n] == date;
    if n < count - 1 {
      assert dates[n] < dates[count - 1];
    }
  }
}
