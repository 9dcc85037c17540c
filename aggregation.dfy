/**
 * Monthly aggregation: one company's field over a month and an operation
 * selection (`aggregateFieldForMonth`), the two companies together
 * (`aggregateKpiForMonth`), and the per-operation table of the detail panel.
 *
 * `FieldTotal` says what the aggregate is without sorting: a sum, or the
 * value of the latest row (`LatestIndex`), or for `All` the sum of each
 * operation's own latest value. `AggregateFieldForMonth` computes it as the
 * dashboard does, sorting fresh arrays by date in place.
 */
module Aggregation {
  import opened Wrappers
  import opened Strings
  import opened Seqs
  import opened Sorting
  import opened Dataset
  import opened MonthKeys

  /** The sort key: the row's date (every filtered row has one). */
  function DateKey(r: Row): string
  {
    r.date.GetOr("")
  }

  function FieldOf(company: string, field: string): Row -> int
  {
    (r: Row) => Value(r, company, field)
  }

  /** What the `last` rule reads from a set of rows: the field of the latest row, 0 when there is none. */
  function LatestValue(rows: seq<Row>, company: string, field: string): int
  {
    if |rows| == 0 then 0 else Value(rows[LatestIndex(rows, DateKey)], company, field)
  }

  /** The `last` rule over `All`: each listed operation's own latest value, added up in list order. */
  function SumOfLatest(rows: seq<Row>, ops: seq<string>, company: string, field: string): int
  {
    if |ops| == 0 then 0
    else SumOfLatest(rows, ops[..|ops| - 1], company, field)
         + LatestValue(RowsOfOperation(rows, ops[|ops| - 1]), company, field)
  }

  lemma {:induction false} SumOfLatestNoRows(ops: seq<string>, company: string, field: string)
    ensures SumOfLatest([], ops, company, field) == 0
  {
    if |ops| > 0 {
      SumOfLatestNoRows(ops[..|ops| - 1], company, field);
    }
  }

  /** Whether the operation has any of the given rows. */
  function HasRows(rows: seq<Row>): string -> bool
  {
    (op: string) => RowsOfOperation(rows, op) != []
  }

  /** Under the `last` rule for `All`, an operation without rows adds nothing to the rest of the list. */
  lemma OperationWithoutRowsAddsNothing(rows: seq<Row>, ops: seq<string>, op: string, company: string, field: string)
    requires RowsOfOperation(rows, op) == []
    ensures SumOfLatest(rows, ops + [op], company, field) == SumOfLatest(rows, ops, company, field)
  {
    assert (ops + [op])[..|ops|] == ops;
  }

  /** Dropping every operation that has no rows leaves the `All`/`last` sum unchanged. */
  lemma {:induction false} DropOperationsWithoutRows(rows: seq<Row>, ops: seq<string>, company: string, field: string)
    ensures SumOfLatest(rows, Filter(ops, HasRows(rows)), company, field) == SumOfLatest(rows, ops, company, field)
  {
    if |ops| > 0 {
      var ops', op := ops[..|ops| - 1], ops[|ops| - 1];
      DropOperationsWithoutRows(rows, ops', company, field);
      var kept := Filter(ops', HasRows(rows));
      if HasRows(rows)(op) {
        assert (kept + [op])[..|kept|] == kept;
      } else {
        assert kept + [] == kept;
        OperationWithoutRowsAddsNothing(rows, ops', op, company, field);
      }
    }
  }

  /**
   * The month's aggregate of one company's field for an operation
   * selection. No field (`null` or empty) gives 0; no matching rows give 0.
   */
  function FieldTotal(app: Option<AppData>, monthKey: string, operation: string, company: string, field: Option<string>): (total: int)
    ensures !Truthy(field) ==> total == 0
    ensures FilterRows(app, monthKey, operation) == [] ==> total == 0
  {
    if !Truthy(field) then 0
    else
      var rows := FilterRows(app, monthKey, operation);
      if GetRule(app, company, field.value) == "last" then
        if operation == All then SumOfLatestNoRows(Operations(app), company, field.value); SumOfLatest(rows, Operations(app), company, field.value)
        else LatestValue(rows, company, field.value)
      else SumOf(rows, FieldOf(company, field.value))
  }

  /** Sorts a fresh copy of non-empty `rows` by date and returns its last row. */
  method LastRowByDate(rows: seq<Row>) returns (last: Row)
    requires |rows| > 0
    ensures last == rows[LatestIndex(rows, DateKey)]
  {
    var a := ToArray(rows);
    SortInPlace(a, DateKey);
    SortByKeyLast(rows, DateKey);
    last := a[a.Length - 1];
  }

  /** The `ops.forEach` loop of the `last` rule for `All`: each operation's latest row, added up. */
  method LatestPerOperation(rows: seq<Row>, ops: seq<string>, company: string, field: string) returns (total: int)
    ensures total == SumOfLatest(rows, ops, company, field)
  {
    total := 0;
    var i := 0;
    while i < |ops|
      invariant 0 <= i <= |ops|
      invariant total == SumOfLatest(rows, ops[..i], company, field)
    {
      var opRows := RowsOfOperation(rows, ops[i]);
      SumOfLatestSnoc(rows, ops, i, company, field);
      if |opRows| > 0 {
        var lastRow := LastRowByDate(opRows);
        total := total + Value(lastRow, company, field);
      }
      i := i + 1;
    }
    assert ops[..|ops|] == ops;
  }

  lemma SumOfLatestSnoc(rows: seq<Row>, ops: seq<string>, i: nat, company: string, field: string)
    requires i < |ops|
    ensures SumOfLatest(rows, ops[..i + 1], company, field)
      == SumOfLatest(rows, ops[..i], company, field) + LatestValue(RowsOfOperation(rows, ops[i]), company, field)
  {
    assert ops[..i + 1][..i] == ops[..i];
  }

  /** `aggregateFieldForMonth`. */
  method AggregateFieldForMonth(app: Option<AppData>, monthKey: string, operation: string, company: string, field: Option<string>)
    returns (total: int)
    ensures total == FieldTotal(app, monthKey, operation, company, field)
  {
    if !Truthy(field) {
      return 0;
    }
    var f := field.value;
    var rows := FilterRows(app, monthKey, operation);
    var rule := GetRule(app, company, f);
    if rule == "last" {
      if operation == All {
        total := LatestPerOperation(rows, Operations(app), company, f);
        return total;
      }
      if |rows| == 0 {
        return 0;
      }
      var lastRow := LastRowByDate(rows);
      return Value(lastRow, company, f);
    }
    total := SumOf(rows, FieldOf(company, f));
  }

  /** `rows[k]` is the latest row: no row has a later date, and every row after it has an earlier one. */
  ghost predicate IsLatestRow(rows: seq<Row>, k: nat)
  {
    && k < |rows|
    && (forall j :: 0 <= j < |rows| ==> LexLe(DateKey(rows[j]), DateKey(rows[k])))
    && (forall j :: k < j < |rows| ==> LexLt(DateKey(rows[j]), DateKey(rows[k])))
  }

  /**
   * Under the `last` rule for one operation, the aggregate is the field of
   * the row with the greatest date; of several rows on that date, the one
   * that comes last in the data.
   */
  lemma LastRuleTakesLatestRow(app: Option<AppData>, monthKey: string, operation: string, company: string, field: string, k: nat)
    requires operation != All && field != "" && GetRule(app, company, field) == "last"
    requires IsLatestRow(FilterRows(app, monthKey, operation), k)
    ensures FieldTotal(app, monthKey, operation, company, Some(field))
      == Value(FilterRows(app, monthKey, operation)[k], company, field)
  {
    LatestIndexUnique(FilterRows(app, monthKey, operation), DateKey, k);
  }

  /**
   * Under the `sum` rule (any rule other than `last`), the aggregate does
   * not depend on the order of the data's rows.
   */
  lemma SumRuleOrderIndependent(app1: AppData, app2: AppData, monthKey: string, operation: string, company: string, field: string)
    requires app1.configuration == app2.configuration && app1.operations == app2.operations
    requires multiset(app1.rows) == multiset(app2.rows)
    requires GetRule(Some(app1), company, field) != "last"
    ensures FieldTotal(Some(app1), monthKey, operation, company, Some(field))
      == FieldTotal(Some(app2), monthKey, operation, company, Some(field))
  {
    var rows1 := FilterRows(Some(app1), monthKey, operation);
    var rows2 := FilterRows(Some(app2), monthKey, operation);
    forall x | true
      ensures multiset(rows1)[x] == multiset(rows2)[x]
    {
      FilterRowsExact(app1, monthKey, operation, x);
      FilterRowsExact(app2, monthKey, operation, x);
    }
    assert multiset(rows1) == multiset(rows2);
    assert GetRule(Some(app1), company, field) == GetRule(Some(app2), company, field);
    SumOfPermutation(rows1, rows2, FieldOf(company, field));
  }

  /** The aggregate of one field for each operation, as a function of the operation. */
  function OperationFieldTotal(app: Option<AppData>, monthKey: string, company: string, field: Option<string>): string -> int
  {
    (op: string) => FieldTotal(app, monthKey, op, company, field)
  }

  lemma {:induction false} SumOfLatestIsSumOfOperations(app: Option<AppData>, monthKey: string, ops: seq<string>, company: string, field: string)
    requires field != "" && GetRule(app, company, field) == "last" && All !in ops
    ensures SumOfLatest(FilterRows(app, monthKey, All), ops, company, field)
      == SumOf(ops, OperationFieldTotal(app, monthKey, company, Some(field)))
  {
    if |ops| > 0 {
      var op := ops[|ops| - 1];
      SumOfLatestIsSumOfOperations(app, monthKey, ops[..|ops| - 1], company, field);
      RowsOfOperationOfAll(app, monthKey, op);
    }
  }

  /**
   * Under the `last` rule, the `All` aggregate is the sum over the listed
   * operations of each operation's own aggregate: the per-operation table
   * adds up to the `All` figure.
   */
  lemma AllLastIsSumOfOperations(app: Option<AppData>, monthKey: string, company: string, field: string)
    requires field != "" && GetRule(app, company, field) == "last" && All !in Operations(app)
    ensures FieldTotal(app, monthKey, All, company, Some(field))
      == SumOf(Operations(app), OperationFieldTotal(app, monthKey, company, Some(field)))
  {
    SumOfLatestIsSumOfOperations(app, monthKey, Operations(app), company, field);
  }

  lemma {:induction false} SumOfLatestSameOperations(rows1: seq<Row>, rows2: seq<Row>, ops: seq<string>, company: string, field: string)
    requires forall i :: 0 <= i < |ops| ==> RowsOfOperation(rows1, ops[i]) == RowsOfOperation(rows2, ops[i])
    ensures SumOfLatest(rows1, ops, company, field) == SumOfLatest(rows2, ops, company, field)
  {
    if |ops| > 0 {
      SumOfLatestSameOperations(rows1, rows2, ops[..|ops| - 1], company, field);
    }
  }

  /** Appending a row of an unlisted operation leaves each listed operation's rows of the month as they were. */
  lemma AppendUnlistedKeepsOperationRows(app: AppData, r: Row, monthKey: string)
    requires r.operation !in Operations(Some(app))
    ensures forall i :: 0 <= i < |Operations(Some(app))| ==>
      RowsOfOperation(FilterRows(Some(app.(rows := app.rows + [r])), monthKey, All), Operations(Some(app))[i])
        == RowsOfOperation(FilterRows(Some(app), monthKey, All), Operations(Some(app))[i])
  {
    var rows := FilterRows(Some(app), monthKey, All);
    var extra := if Keeps(r, monthKey, All) then [r] else [];
    FilterAppend(app.rows, [r], KeepsFor(monthKey, All));
    FilterSingleton(r, KeepsFor(monthKey, All));
    var ops := Operations(Some(app));
    forall i | 0 <= i < |ops|
      ensures RowsOfOperation(rows + extra, ops[i]) == RowsOfOperation(rows, ops[i])
    {
      FilterAppend(rows, extra, OfOperation(ops[i]));
      if extra != [] {
        FilterSingleton(r, OfOperation(ops[i]));
      }
    }
  }

  /**
   * Under the `last` rule, a row whose operation is not listed changes
   * nothing in the `All` aggregate, wherever it falls in the month.
   */
  lemma AllLastIgnoresUnlistedOperation(app: AppData, r: Row, monthKey: string, company: string, field: string)
    requires r.operation !in Operations(Some(app))
    requires GetRule(Some(app), company, field) == "last"
    ensures FieldTotal(Some(app.(rows := app.rows + [r])), monthKey, All, company, Some(field))
      == FieldTotal(Some(app), monthKey, All, company, Some(field))
  {
    var app' := app.(rows := app.rows + [r]);
    AppendUnlistedKeepsOperationRows(app, r, monthKey);
    SumOfLatestSameOperations(FilterRows(Some(app'), monthKey, All), FilterRows(Some(app), monthKey, All),
      Operations(Some(app)), company, field);
    assert GetRule(Some(app'), company, field) == "last";
  }

  /**
   * Under the `last` rule, the rows whose operation is not listed contribute
   * nothing to the `All` aggregate: dropping all of them, wherever they sit
   * in the data, leaves the figure unchanged.
   */
  lemma UnlistedRowsContributeNothing(app: AppData, monthKey: string, company: string, field: string)
    requires GetRule(Some(app), company, field) == "last"
    ensures FieldTotal(Some(app.(rows := Filter(app.rows, Listed(Operations(Some(app)))))), monthKey, All, company, Some(field))
      == FieldTotal(Some(app), monthKey, All, company, Some(field))
  {
    var ops := Operations(Some(app));
    var app' := app.(rows := Filter(app.rows, Listed(ops)));
    assert Operations(Some(app')) == ops && GetRule(Some(app'), company, field) == "last";
    forall i | 0 <= i < |ops|
      ensures RowsOfOperation(FilterRows(Some(app'), monthKey, All), ops[i])
        == RowsOfOperation(FilterRows(Some(app), monthKey, All), ops[i])
    {
      ListedRowsOfOperation(app.rows, ops, ops[i], monthKey);
    }
    SumOfLatestSameOperations(FilterRows(Some(app'), monthKey, All), FilterRows(Some(app), monthKey, All), ops, company, field);
  }

  /** For a listed operation, dropping the unlisted rows first changes none of its month rows. */
  lemma ListedRowsOfOperation(rows: seq<Row>, ops: seq<string>, op: string, monthKey: string)
    requires op in ops
    ensures Filter(Filter(Filter(rows, Listed(ops)), KeepsFor(monthKey, All)), OfOperation(op))
      == Filter(Filter(rows, KeepsFor(monthKey, All)), OfOperation(op))
  {
    var listedInMonth := (r: Row) => Listed(ops)(r) && KeepsFor(monthKey, All)(r);
    var inMonth := (r: Row) => KeepsFor(monthKey, All)(r) && OfOperation(op)(r);
    var all3 := (r: Row) => listedInMonth(r) && OfOperation(op)(r);
    FilterFilter(rows, Listed(ops), KeepsFor(monthKey, All), listedInMonth);
    FilterFilter(rows, listedInMonth, OfOperation(op), all3);
    FilterFilter(rows, KeepsFor(monthKey, All), OfOperation(op), inMonth);
    FilterSame(rows, all3, inMonth);
  }

  /** The month's rows are partitioned by the operation list: each row's operation is listed, and listed once. */
  ghost predicate PartitionedByOperation(app: Option<AppData>, monthKey: string)
  {
    && Distinct(Operations(app))
    && forall r :: r in FilterRows(app, monthKey, All) ==> r.operation in Operations(app)
  }

  /**
   * Under the `sum` rule, the `All` aggregate is the sum of the listed
   * operations' aggregates when the month's rows are partitioned by them.
   */
  lemma AllSumIsSumOfOperations(app: Option<AppData>, monthKey: string, company: string, field: string)
    requires field != "" && GetRule(app, company, field) != "last" && All !in Operations(app)
    requires PartitionedByOperation(app, monthKey)
    ensures FieldTotal(app, monthKey, All, company, Some(field))
      == SumOf(Operations(app), OperationFieldTotal(app, monthKey, company, Some(field)))
  {
    var rows := FilterRows(app, monthKey, All);
    var ops := Operations(app);
    var f := FieldOf(company, field);
    forall i | 0 <= i < |rows|
      ensures OperationOf(rows[i]) in ops
    {
      assert rows[i] in FilterRows(app, monthKey, All);
    }
    SumByKey(rows, OperationOf, ops, f);
    forall i | 0 <= i < |ops|
      ensures KeySum(rows, OperationOf, f)(ops[i]) == OperationFieldTotal(app, monthKey, company, Some(field))(ops[i])
    {
      FilterSame(rows, KeyIs(OperationOf, ops[i]), OfOperation(ops[i]));
      RowsOfOperationOfAll(app, monthKey, ops[i]);
    }
    SumOfCongruent(ops, KeySum(rows, OperationOf, f), OperationFieldTotal(app, monthKey, company, Some(field)));
  }

  /** When the `All` figure of a field is the sum of the per-operation figures. */
  ghost predicate AddsUpByOperation(app: Option<AppData>, monthKey: string, company: string, field: Option<string>)
  {
    All !in Operations(app)
    && (!Truthy(field) || GetRule(app, company, field.value) == "last" || PartitionedByOperation(app, monthKey))
  }

  lemma FieldAddsUp(app: Option<AppData>, monthKey: string, company: string, field: Option<string>)
    requires AddsUpByOperation(app, monthKey, company, field)
    ensures FieldTotal(app, monthKey, All, company, field)
      == SumOf(Operations(app), OperationFieldTotal(app, monthKey, company, field))
  {
    if !Truthy(field) {
      SumOfZero(Operations(app), OperationFieldTotal(app, monthKey, company, field));
    } else if GetRule(app, company, field.value) == "last" {
      AllLastIsSumOfOperations(app, monthKey, company, field.value);
    } else {
      AllSumIsSumOfOperations(app, monthKey, company, field.value);
    }
  }

  /** The two fields a KPI reads: Africell's, and Afrimoney's when it has one. */
  datatype KpiMap = KpiMap(afr: string, afm: Option<string>)

  datatype KpiTotals = KpiTotals(afr: int, afm: int, total: int)

  const Africell := "Africell"
  const Afrimoney := "Afrimoney"

  function KpiTotal(app: Option<AppData>, monthKey: string, operation: string, kpi: KpiMap): KpiTotals
  {
    var afr := FieldTotal(app, monthKey, operation, Africell, Some(kpi.afr));
    var afm := FieldTotal(app, monthKey, operation, Afrimoney, kpi.afm);
    KpiTotals(afr, afm, afr + afm)
  }

  /** `aggregateKpiForMonth`: both companies' aggregates of a KPI and their sum. */
  method AggregateKpiForMonth(app: Option<AppData>, monthKey: string, operation: string, kpi: KpiMap)
    returns (t: KpiTotals)
    ensures t == KpiTotal(app, monthKey, operation, kpi)
    ensures t.afr == FieldTotal(app, monthKey, operation, Africell, Some(kpi.afr))
    ensures t.afm == FieldTotal(app, monthKey, operation, Afrimoney, kpi.afm)
    ensures t.total == t.afr + t.afm
    ensures !Truthy(kpi.afm) ==> t.afm == 0 && t.total == t.afr
  {
    var afr := AggregateFieldForMonth(app, monthKey, operation, Africell, Some(kpi.afr));
    var afm := AggregateFieldForMonth(app, monthKey, operation, Afrimoney, kpi.afm);
    t := KpiTotals(afr, afm, afr + afm);
  }

  /** A KPI's total for each operation, as a function of the operation. */
  function OperationKpiTotal(app: Option<AppData>, monthKey: string, kpi: KpiMap): string -> int
  {
    (op: string) => KpiTotal(app, monthKey, op, kpi).total
  }

  /**
   * The `All` total of a KPI is the sum of its per-operation totals when
   * each of its fields adds up by operation: under the `last` rule, or
   * under the `sum` rule with the month's rows partitioned by operation.
   */
  lemma AllKpiIsSumOfOperations(app: Option<AppData>, monthKey: string, kpi: KpiMap)
    requires AddsUpByOperation(app, monthKey, Africell, Some(kpi.afr))
    requires AddsUpByOperation(app, monthKey, Afrimoney, kpi.afm)
    ensures KpiTotal(app, monthKey, All, kpi).total == SumOf(Operations(app), OperationKpiTotal(app, monthKey, kpi))
  {
    FieldAddsUp(app, monthKey, Africell, Some(kpi.afr));
    FieldAddsUp(app, monthKey, Afrimoney, kpi.afm);
    SumOfPointwise(Operations(app),
      OperationFieldTotal(app, monthKey, Africell, Some(kpi.afr)),
      OperationFieldTotal(app, monthKey, Afrimoney, kpi.afm),
      OperationKpiTotal(app, monthKey, kpi));
  }

  /** One line of the per-operation table: the KPI's total in each of the three months. */
  datatype OperationLine = OperationLine(op: string, prev: int, cur: int, ly: int)

  datatype PeriodTotals = PeriodTotals(prev: int, cur: int, ly: int)

  /** What the KPI detail panel shows: three KPI totals for one operation, or the per-operation table for `All`. */
  datatype Panel =
    | OperationView(prev: KpiTotals, cur: KpiTotals, ly: KpiTotals)
    | AllView(lines: seq<OperationLine>, totals: PeriodTotals)

  function LinePrev(l: OperationLine): int { l.prev }
  function LineCur(l: OperationLine): int { l.cur }
  function LineLy(l: OperationLine): int { l.ly }

  /** The table line of one operation. */
  function LineOf(app: Option<AppData>, keys: PeriodKeys, kpi: KpiMap, op: string): OperationLine
  {
    OperationLine(op,
      KpiTotal(app, keys.previous, op, kpi).total,
      KpiTotal(app, keys.current, op, kpi).total,
      KpiTotal(app, keys.lastYear, op, kpi).total)
  }

  /** One operation's table line: its KPI totals in the three months. */
  method OperationLineFor(app: Option<AppData>, keys: PeriodKeys, kpi: KpiMap, op: string)
    returns (line: OperationLine)
    ensures line == LineOf(app, keys, kpi, op)
  {
    var prev := AggregateKpiForMonth(app, keys.previous, op, kpi);
    var cur := AggregateKpiForMonth(app, keys.current, op, kpi);
    var ly := AggregateKpiForMonth(app, keys.lastYear, op, kpi);
    line := OperationLine(op, prev.total, cur.total, ly.total);
  }

  /** The table line of each operation, as a function of the operation. */
  function LineFor(app: Option<AppData>, keys: PeriodKeys, kpi: KpiMap): string -> OperationLine
  {
    (op: string) => LineOf(app, keys, kpi, op)
  }

  /** The lines of the per-operation table, one per listed operation, in list order. */
  method OperationLines(app: Option<AppData>, keys: PeriodKeys, kpi: KpiMap)
    returns (lines: seq<OperationLine>)
    ensures lines == Map(Operations(app), LineFor(app, keys, kpi))
  {
    var ops := Operations(app);
    lines := [];
    var i := 0;
    while i < |ops|
      invariant 0 <= i <= |ops|
      invariant lines == Map(ops[..i], LineFor(app, keys, kpi))
    {
      var line := OperationLineFor(app, keys, kpi, ops[i]);
      MapSnoc(ops, i, LineFor(app, keys, kpi));
      lines := lines + [line];
      i := i + 1;
    }
    assert ops[..i] == ops;
  }

  /** The table for `All`: one line per listed operation, and the column sums (`reduce`). */
  method AllOperationsView(app: Option<AppData>, keys: PeriodKeys, kpi: KpiMap) returns (view: Panel)
    ensures view == AllView(
      Map(Operations(app), LineFor(app, keys, kpi)),
      PeriodTotals(
        SumOf(Operations(app), OperationKpiTotal(app, keys.previous, kpi)),
        SumOf(Operations(app), OperationKpiTotal(app, keys.current, kpi)),
        SumOf(Operations(app), OperationKpiTotal(app, keys.lastYear, kpi))))
  {
    var lines := OperationLines(app, keys, kpi);
    var totals := PeriodTotals(SumOf(lines, LinePrev), SumOf(lines, LineCur), SumOf(lines, LineLy));
    var ops := Operations(app);
    SumOfMap(ops, LineFor(app, keys, kpi), LinePrev, OperationKpiTotal(app, keys.previous, kpi));
    SumOfMap(ops, LineFor(app, keys, kpi), LineCur, OperationKpiTotal(app, keys.current, kpi));
    SumOfMap(ops, LineFor(app, keys, kpi), LineLy, OperationKpiTotal(app, keys.lastYear, kpi));
    view := AllView(lines, totals);
  }

  /**
   * The figures of `ShowKPIsPanel`: nothing without data; for one
   * operation, its KPI totals in the previous, current and last-year
   * months; for `All`, one line per listed operation and the column sums,
   * which are the sums over the operations of their KPI totals.
   */
  method KpiPanel(app: Option<AppData>, keys: PeriodKeys, selected: string, kpi: KpiMap)
    returns (panel: Option<Panel>)
    ensures app.None? <==> panel.None?
    ensures panel.Some? && selected != All ==> panel.value == OperationView(
      KpiTotal(app, keys.previous, selected, kpi),
      KpiTotal(app, keys.current, selected, kpi),
      KpiTotal(app, keys.lastYear, selected, kpi))
    ensures panel.Some? && selected == All ==> panel.value == AllView(
      Map(Operations(app), LineFor(app, keys, kpi)),
      PeriodTotals(
        SumOf(Operations(app), OperationKpiTotal(app, keys.previous, kpi)),
        SumOf(Operations(app), OperationKpiTotal(app, keys.current, kpi)),
        SumOf(Operations(app), OperationKpiTotal(app, keys.lastYear, kpi))))
  {
    if app.None? {
      return None;
    }
    if selected != All {
      var prev := AggregateKpiForMonth(app, keys.previous, selected, kpi);
      var cur := AggregateKpiForMonth(app, keys.current, selected, kpi);
      var ly := AggregateKpiForMonth(app, keys.lastYear, selected, kpi);
      return Some(OperationView(prev, cur, ly));
    }
    var view := AllOperationsView(app, keys, kpi);
    return Some(view);
  }

  /**
   * The table's total for a month equals the `All` card figure for that
   * month whenever both fields add up by operation.
   */
  lemma TableTotalIsAllFigure(app: Option<AppData>, monthKey: string, kpi: KpiMap, lines: seq<OperationLine>)
    requires |lines| == |Operations(app)|
    requires forall i :: 0 <= i < |lines| ==> lines[i].cur == KpiTotal(app, monthKey, Operations(app)[i], kpi).total
    requires AddsUpByOperation(app, monthKey, Africell, Some(kpi.afr))
    requires AddsUpByOperation(app, monthKey, Afrimoney, kpi.afm)
    ensures SumOf(lines, LineCur) == KpiTotal(app, monthKey, All, kpi).total
  {
    SumOfZip(lines, LineCur, Operations(app), OperationKpiTotal(app, monthKey, kpi));
    AllKpiIsSumOfOperations(app, monthKey, kpi);
  }

  /** Two operations reporting a snapshot field in January 2026: DRC on the 5th, SL on the 20th. */
  const SnapshotExample := AppData(
    Configuration(map[], Some("last")),
    Some(["DRC", "SL"]),
    [ Row(Some("2026-01-05"), "DRC", map[Africell := map["Subscribers" := 100]]),
      Row(Some("2026-01-20"), "SL", map[Africell := map["Subscribers" := 40]]) ])

  lemma SnapshotExampleRows()
    ensures FilterRows(Some(SnapshotExample), "2026-01", All) == SnapshotExample.rows
  {
    var r0, r1 := SnapshotExample.rows[0], SnapshotExample.rows[1];
    assert r0.date.value[..7] == "2026-01" && r1.date.value[..7] == "2026-01";
    assert Keeps(r0, "2026-01", All) && Keeps(r1, "2026-01", All);
    FilterPair(r0, r1, KeepsFor("2026-01", All));
    assert SnapshotExample.rows == [r0, r1];
  }

  lemma SnapshotExampleOperations()
    ensures RowsOfOperation(SnapshotExample.rows, "DRC") == [SnapshotExample.rows[0]]
    ensures RowsOfOperation(SnapshotExample.rows, "SL") == [SnapshotExample.rows[1]]
  {
    var r0, r1 := SnapshotExample.rows[0], SnapshotExample.rows[1];
    assert SnapshotExample.rows == [r0, r1];
    FilterPair(r0, r1, OfOperation("DRC"));
    FilterPair(r0, r1, OfOperation("SL"));
  }

  lemma SnapshotExampleDates()
    ensures LexLt("2026-01-05", "2026-01-20")
  {
    var a, b := "2026-01-05", "2026-01-20";
    assert a[..8] == b[..8];
    LexLtAt(a, b, 8);
  }

  /** Of two rows, the later-dated one is the latest. */
  lemma LatestValuePair(r0: Row, r1: Row, company: string, field: string)
    requires LexLt(DateKey(r0), DateKey(r1))
    ensures LatestValue([r0, r1], company, field) == Value(r1, company, field)
  {
    LexLeReflexive(DateKey(r1));
    LatestIndexUnique([r0, r1], DateKey, 1);
  }

  lemma SnapshotExampleLatestValue()
    ensures LatestValue(SnapshotExample.rows, Africell, "Subscribers") == 40
  {
    var rows := SnapshotExample.rows;
    SnapshotExampleDates();
    assert rows == [rows[0], rows[1]];
    LatestValuePair(rows[0], rows[1], Africell, "Subscribers");
  }

  lemma LatestValueSingle(r: Row, company: string, field: string)
    ensures LatestValue([r], company, field) == Value(r, company, field)
  {
    LexLeReflexive(DateKey(r));
    LatestIndexUnique([r], DateKey, 0);
  }

  lemma SnapshotExampleSum()
    ensures SumOfLatest(SnapshotExample.rows, ["DRC", "SL"], Africell, "Subscribers") == 140
  {
    var rows := SnapshotExample.rows;
    SnapshotExampleOperations();
    LatestValueSingle(rows[0], Africell, "Subscribers");
    LatestValueSingle(rows[1], Africell, "Subscribers");
    assert Value(rows[0], Africell, "Subscribers") == 100;
    assert Value(rows[1], Africell, "Subscribers") == 40;
    assert ["DRC", "SL"][..1] == ["DRC"] && ["DRC"][..0] == [];
    assert SumOfLatest(rows, ["DRC"], Africell, "Subscribers")
      == LatestValue(RowsOfOperation(rows, "DRC"), Africell, "Subscribers");
    assert SumOfLatest(rows, ["DRC", "SL"], Africell, "Subscribers")
      == SumOfLatest(rows, ["DRC"], Africell, "Subscribers")
         + LatestValue(RowsOfOperation(rows, "SL"), Africell, "Subscribers");
  }

  lemma SnapshotExampleConfiguration()
    ensures GetRule(Some(SnapshotExample), Africell, "Subscribers") == "last"
    ensures Operations(Some(SnapshotExample)) == ["DRC", "SL"]
  {
  }

  /**
   * Under the `last` rule, `All` adds each operation's latest snapshot
   * (100 + 40), where the latest row of the month alone holds 40.
   */
  lemma AllLastIsNotLatestRow()
    ensures FieldTotal(Some(SnapshotExample), "2026-01", All, Africell, Some("Subscribers")) == 140
    ensures LatestValue(FilterRows(Some(SnapshotExample), "2026-01", All), Africell, "Subscribers") == 40
  {
    SnapshotExampleConfiguration();
    SnapshotExampleRows();
    SnapshotExampleSum();
    SnapshotExampleLatestValue();
  }
}
