/**
 * The daily trend series of a KPI (`buildDailySeries`): the month's rows
 * for the operation selection, added up per date (Africell's field plus
 * Afrimoney's when the KPI has one) in a map that remembers first-insertion
 * order, then sorted by date.
 */
module DailySeries {
  import opened Wrappers
  import opened Seqs
  import opened Sorting
  import opened Dataset
  import opened Aggregation

  /** One point of the series: a date and that date's total. */
  datatype Point = Point(date: string, value: int)

  function PointDate(p: Point): string
  {
    p.date
  }

  function PointValue(p: Point): int
  {
    p.value
  }

  /** One row's contribution: Africell's field, plus Afrimoney's when the KPI has one. */
  function DayValue(kpi: KpiMap): Row -> int
  {
    (r: Row) => Value(r, Africell, kpi.afr) + (if Truthy(kpi.afm) then Value(r, Afrimoney, kpi.afm.value) else 0)
  }

  /** The rows dated `d`, in order. */
  function RowsOn(rows: seq<Row>, d: string): seq<Row>
  {
    Filter(rows, KeyIs(DateKey, d))
  }

  /** The map entry of a date as a point (`[date, value] => ({ date, value })`). */
  function EntryOf(byDate: map<string, int>): string -> Point
  {
    (d: string) => Point(d, if d in byDate then byDate[d] else 0)
  }

  lemma RowsOnAppend(prefix: seq<Row>, r: Row, d: string, f: Row -> int)
    ensures SumOf(RowsOn(prefix + [r], d), f) == SumOf(RowsOn(prefix, d), f) + (if DateKey(r) == d then f(r) else 0)
  {
    var p := KeyIs(DateKey, d);
    FilterAppend(prefix, [r], p);
    assert Filter([r], p) == if p(r) then [r] else [] by {
      assert [r][..0] == [];
    }
    SumOfAppend(Filter(prefix, p), Filter([r], p), f);
    if p(r) {
      SumOfSingleton(r, f);
    }
  }

  lemma RowsOnAbsent(prefix: seq<Row>, d: string)
    requires d !in Map(prefix, DateKey)
    ensures RowsOn(prefix, d) == []
  {
    MapMember(prefix, DateKey, d);
    FilterNone(prefix, KeyIs(DateKey, d));
  }

  /**
   * A series whose dates strictly ascend, are the dates of `rows`, and whose
   * every value is the total of its date's rows adds up to the total of
   * `rows`.
   */
  lemma SeriesTotal(rows: seq<Row>, series: seq<Point>, f: Row -> int)
    requires StrictlySortedBy(series, PointDate)
    requires forall d :: d in Map(series, PointDate) <==> d in Map(rows, DateKey)
    requires forall k :: 0 <= k < |series| ==> series[k].value == SumOf(RowsOn(rows, series[k].date), f)
    ensures SumOf(series, PointValue) == SumOf(rows, f)
  {
    var dates := Map(series, PointDate);
    MapAt(series, PointDate);
    MapAt(rows, DateKey);
    assert Distinct(dates);
    forall i | 0 <= i < |rows|
      ensures DateKey(rows[i]) in dates
    {
      assert Map(rows, DateKey)[i] == DateKey(rows[i]);
    }
    SumByKey(rows, DateKey, dates, f);
    SumOfMap(series, PointDate, KeySum(rows, DateKey, f), PointValue);
  }

  /** The date map after adding `rows` in order: each date's running total. */
  function TotalsMap(rows: seq<Row>, f: Row -> int): map<string, int>
  {
    if |rows| == 0 then map[]
    else
      var m, d := TotalsMap(rows[..|rows| - 1], f), DateKey(rows[|rows| - 1]);
      m[d := (if d in m then m[d] else 0) + f(rows[|rows| - 1])]
  }

  /** The map's insertion order after adding `rows`: each date where it first appears. */
  function FirstDates(rows: seq<Row>): seq<string>
  {
    if |rows| == 0 then []
    else
      var o, d := FirstDates(rows[..|rows| - 1]), DateKey(rows[|rows| - 1]);
      if d in o then o else o + [d]
  }

  lemma {:induction false} FirstDatesDistinct(rows: seq<Row>)
    ensures Distinct(FirstDates(rows))
  {
    if |rows| > 0 {
      FirstDatesDistinct(rows[..|rows| - 1]);
    }
  }

  /** The insertion order lists exactly the dates of `rows`. */
  lemma {:induction false} FirstDatesMembers(rows: seq<Row>, d: string)
    ensures d in FirstDates(rows) <==> d in Map(rows, DateKey)
  {
    if |rows| > 0 {
      FirstDatesMembers(rows[..|rows| - 1], d);
    }
  }

  /** The map's keys are the dates of its insertion order. */
  lemma {:induction false} TotalsMapKeys(rows: seq<Row>, f: Row -> int, d: string)
    ensures d in TotalsMap(rows, f) <==> d in FirstDates(rows)
  {
    if |rows| > 0 {
      TotalsMapKeys(rows[..|rows| - 1], f, d);
    }
  }

  /** Each date's entry is the total of that date's rows. */
  lemma {:induction false} TotalsMapValues(rows: seq<Row>, f: Row -> int, d: string)
    requires d in TotalsMap(rows, f)
    ensures TotalsMap(rows, f)[d] == SumOf(RowsOn(rows, d), f)
  {
    var prefix, r := rows[..|rows| - 1], rows[|rows| - 1];
    assert rows == prefix + [r];
    RowsOnAppend(prefix, r, d, f);
    if d in TotalsMap(prefix, f) {
      TotalsMapValues(prefix, f, d);
    } else if d == DateKey(r) {
      TotalsMapKeys(prefix, f, d);
      FirstDatesMembers(prefix, d);
      RowsOnAbsent(prefix, d);
    }
  }

  /**
   * The `forEach` of `buildDailySeries`: adds each row's contribution to
   * its date's entry, creating the entry (at the end of the insertion
   * order) on the date's first row.
   */
  method DateTotals(rows: seq<Row>, kpi: KpiMap) returns (byDate: map<string, int>, order: seq<string>)
    requires forall i :: 0 <= i < |rows| ==> rows[i].date.Some?
    ensures byDate == TotalsMap(rows, DayValue(kpi)) && order == FirstDates(rows)
  {
    byDate, order := map[], [];
    for i := 0 to |rows|
      invariant byDate == TotalsMap(rows[..i], DayValue(kpi)) && order == FirstDates(rows[..i])
    {
      var r := rows[i];
      var d := r.date.value;
      var afr := Value(r, Africell, kpi.afr);
      var afm := if Truthy(kpi.afm) then Value(r, Afrimoney, kpi.afm.value) else 0;
      var prior := if d in byDate then byDate[d] else 0;
      if d !in byDate {
        order := order + [d];
      }
      byDate := byDate[d := prior + afr + afm];
      assert rows[..i + 1][..i] == rows[..i];
      TotalsMapKeys(rows[..i], DayValue(kpi), d);
    }
    assert rows[..|rows|] == rows;
  }

  /** The map's entries in insertion order have distinct dates: the dates of `order`. */
  lemma EntriesDates(byDate: map<string, int>, order: seq<string>)
    requires Distinct(order)
    ensures KeysDistinct(Map(order, EntryOf(byDate)), PointDate)
    ensures Map(Map(order, EntryOf(byDate)), PointDate) == order
  {
    var entries := Map(order, EntryOf(byDate));
    MapAt(order, EntryOf(byDate));
    MapAt(entries, PointDate);
  }

  /** Sorting the entries by date keeps each entry's value: its date's total. */
  lemma SortedEntryValues(rows: seq<Row>, f: Row -> int, series: seq<Point>)
    requires multiset(series) == multiset(Map(FirstDates(rows), EntryOf(TotalsMap(rows, f))))
    ensures forall k :: 0 <= k < |series| ==> series[k].value == SumOf(RowsOn(rows, series[k].date), f)
  {
    var order, byDate := FirstDates(rows), TotalsMap(rows, f);
    var entries := Map(order, EntryOf(byDate));
    MapAt(order, EntryOf(byDate));
    forall k | 0 <= k < |series|
      ensures series[k].value == SumOf(RowsOn(rows, series[k].date), f)
    {
      assert series[k] in multiset(entries);
      var j :| 0 <= j < |entries| && entries[j] == series[k];
      TotalsMapKeys(rows, f, order[j]);
      TotalsMapValues(rows, f, order[j]);
    }
  }

  /**
   * `buildDailySeries`: one point per date of the month's rows for the
   * operation selection, in strictly ascending date order, each holding the
   * total of its date's rows; the points add up to the total of all rows.
   */
  method BuildDailySeries(app: Option<AppData>, monthKey: string, operation: string, kpi: KpiMap)
    returns (series: seq<Point>)
    ensures StrictlySortedBy(series, PointDate)
    ensures forall d :: d in Map(series, PointDate) <==> d in Map(FilterRows(app, monthKey, operation), DateKey)
    ensures forall k :: 0 <= k < |series| ==>
      series[k].value == SumOf(RowsOn(FilterRows(app, monthKey, operation), series[k].date), DayValue(kpi))
    ensures SumOf(series, PointValue) == SumOf(FilterRows(app, monthKey, operation), DayValue(kpi))
  {
    var rows := FilterRows(app, monthKey, operation);
    var byDate, order := DateTotals(rows, kpi);
    var entries := Map(order, EntryOf(byDate));
    var a := ToArray(entries);
    SortInPlace(a, PointDate);
    series := a[..];

    FirstDatesDistinct(rows);
    EntriesDates(byDate, order);
    SortByKeyStrictlySorted(entries, PointDate);
    forall e
      ensures e in Map(series, PointDate) <==> e in Map(rows, DateKey)
    {
      MapPermutation(series, entries, PointDate, e);
      FirstDatesMembers(rows, e);
    }
    SortedEntryValues(rows, DayValue(kpi), series);
    SeriesTotal(rows, series, DayValue(kpi));
  }

  /**
   * Under the `sum` rule for both of a KPI's fields, the trend series adds
   * up to the month's KPI figure for the same operation selection.
   */
  lemma SeriesTotalIsKpiTotal(app: Option<AppData>, monthKey: string, operation: string, kpi: KpiMap)
    requires kpi.afr != "" && GetRule(app, Africell, kpi.afr) != "last"
    requires Truthy(kpi.afm) ==> GetRule(app, Afrimoney, kpi.afm.value) != "last"
    ensures SumOf(FilterRows(app, monthKey, operation), DayValue(kpi)) == KpiTotal(app, monthKey, operation, kpi).total
  {
    var rows := FilterRows(app, monthKey, operation);
    var afm := if Truthy(kpi.afm) then kpi.afm.value else "";
    var afmOf: Row -> int := (r: Row) => if Truthy(kpi.afm) then Value(r, Afrimoney, afm) else 0;
    SumOfPointwise(rows, FieldOf(Africell, kpi.afr), afmOf, DayValue(kpi));
    if Truthy(kpi.afm) {
      SumOfCongruent(rows, afmOf, FieldOf(Afrimoney, afm));
    } else {
      SumOfZero(rows, afmOf);
    }
  }
}
