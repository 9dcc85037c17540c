/**
 * The loaded dashboard data (`APP_DATA`), passed explicitly: the daily rows,
 * the aggregation configuration and the operation list; with the rule
 * lookup and the month/operation row filter built on them.
 */
module Dataset {
  import opened Wrappers
  import opened Seqs
  import opened MonthKeys
  import opened Strings

  /**
   * One daily row: its `date` (`None` when absent or not a string), its
   * `operation` code, and for each company (`Africell`, `Afrimoney`) its
   * field values. A field missing from the maps reads as 0.
   */
  datatype Row = Row(date: Option<string>, operation: string, companies: map<string, map<string, int>>)

  /**
   * `configuration`: for each company and field, the field's
   * `monthly_aggregation` text if it has one, and
   * `monthly_aggregation_rules.default_rule`. Missing maps are empty.
   */
  datatype Configuration = Configuration(fieldRules: map<string, map<string, Option<string>>>, defaultRule: Option<string>)

  /** The loaded data: configuration, `metadata.operations` and `data`, the rows (missing rows are `[]`). */
  datatype AppData = AppData(configuration: Configuration, operations: Option<seq<string>>, rows: seq<Row>)

  /** The operation selector that means every operation. */
  const All: string := "All"

  /** The operation list used when the data names none. */
  const DefaultOperations: seq<string> := ["DRC", "SL", "GM", "AO"]

  /** JavaScript truthiness of an optional string: present and not empty. */
  predicate Truthy(s: Option<string>)
  {
    s.Some? && s.value != ""
  }

  /** `row[company][field]`, with a missing company or field read as 0. */
  function Value(r: Row, company: string, field: string): (v: int)
    ensures company !in r.companies || field !in r.companies[company] ==> v == 0
    ensures company in r.companies && field in r.companies[company] ==> v == r.companies[company][field]
  {
    if company in r.companies && field in r.companies[company] then r.companies[company][field] else 0
  }

  /** The configured `monthly_aggregation` of one company's field, if any. */
  function FieldRule(app: Option<AppData>, company: string, field: string): Option<string>
  {
    if app.Some? && company in app.value.configuration.fieldRules
       && field in app.value.configuration.fieldRules[company]
    then app.value.configuration.fieldRules[company][field]
    else None
  }

  /** The configured default rule, if any. */
  function DefaultRule(app: Option<AppData>): Option<string>
  {
    if app.Some? then app.value.configuration.defaultRule else None
  }

  /**
   * `getRule`: the field's own rule, else the default rule, else `"sum"`;
   * an empty text counts as absent, so the rule is never empty.
   */
  function GetRule(app: Option<AppData>, company: string, field: string): (rule: string)
    ensures rule != ""
    ensures Truthy(FieldRule(app, company, field)) ==> rule == FieldRule(app, company, field).value
    ensures !Truthy(FieldRule(app, company, field)) && Truthy(DefaultRule(app)) ==> rule == DefaultRule(app).value
    ensures !Truthy(FieldRule(app, company, field)) && !Truthy(DefaultRule(app)) ==> rule == "sum"
  {
    var own := FieldRule(app, company, field);
    if Truthy(own) then own.value
    else if Truthy(DefaultRule(app)) then DefaultRule(app).value
    else "sum"
  }

  /** `metadata.operations`, or the default list when the data has none (an empty list is kept). */
  function Operations(app: Option<AppData>): (ops: seq<string>)
    ensures app.Some? && app.value.operations.Some? ==> ops == app.value.operations.value
    ensures app.None? || app.value.operations.None? ==> ops == ["DRC", "SL", "GM", "AO"]
  {
    if app.Some? && app.value.operations.Some? then app.value.operations.value else DefaultOperations
  }

  /** `isSameMonth`: the date is a string that starts with the month key. */
  predicate IsSameMonth(date: Option<string>, monthKey: string)
  {
    date.Some? && monthKey <= date.value
  }

  /** The row passes `filterRows`: in the month, and of the selected operation unless the selector is `All`. */
  predicate Keeps(r: Row, monthKey: string, operation: string)
  {
    IsSameMonth(r.date, monthKey) && (operation == All || r.operation == operation)
  }

  function KeepsFor(monthKey: string, operation: string): Row -> bool
  {
    (r: Row) => Keeps(r, monthKey, operation)
  }

  /** `filterRows`: the rows of the month and operation, in data order; none without data. */
  function FilterRows(app: Option<AppData>, monthKey: string, operation: string): (rows: seq<Row>)
    ensures app.None? ==> rows == []
    ensures forall i :: 0 <= i < |rows| ==> Keeps(rows[i], monthKey, operation)
  {
    if app.None? then []
    else FilterSatisfies(app.value.rows, KeepsFor(monthKey, operation)); Filter(app.value.rows, KeepsFor(monthKey, operation))
  }

  /**
   * The filter keeps exactly the matching rows: each matching row as many
   * times as the data holds it, no other row, in the data's order.
   */
  lemma FilterRowsExact(app: AppData, monthKey: string, operation: string, x: Row)
    ensures multiset(FilterRows(Some(app), monthKey, operation))[x]
      == if Keeps(x, monthKey, operation) then multiset(app.rows)[x] else 0
    ensures IsSubsequence(FilterRows(Some(app), monthKey, operation), app.rows)
  {
    FilterCount(app.rows, KeepsFor(monthKey, operation), x);
    FilterIsSubsequence(app.rows, KeepsFor(monthKey, operation));
  }

  /** The key the per-operation partition sum groups rows by. */
  function OperationOf(r: Row): string
  {
    r.operation
  }

  function OfOperation(operation: string): Row -> bool
  {
    (r: Row) => r.operation == operation
  }

  /** The row's operation is one of `ops`. */
  function Listed(ops: seq<string>): Row -> bool
  {
    (r: Row) => r.operation in ops
  }

  /** `rows.filter((r) => r.operation === op)`. */
  function RowsOfOperation(rows: seq<Row>, operation: string): seq<Row>
  {
    Filter(rows, OfOperation(operation))
  }

  /** Picking one operation out of the whole month's rows is filtering the data for that operation. */
  lemma RowsOfOperationOfAll(app: Option<AppData>, monthKey: string, operation: string)
    requires operation != All
    ensures RowsOfOperation(FilterRows(app, monthKey, All), operation) == FilterRows(app, monthKey, operation)
  {
    if app.Some? {
      FilterFilter(app.value.rows, KeepsFor(monthKey, All), OfOperation(operation), KeepsFor(monthKey, operation));
    }
  }

  /**
   * On canonical dates, the prefix test of `isSameMonth` is month
   * equality: a date that begins with the key of one month (four-digit
   * year) is in another month's key exactly when the two months are the same.
   */
  lemma SameMonthOfCanonicalDate(dateMonth: MonthParts, day: string, keyMonth: MonthParts)
    requires 1000 <= dateMonth.year <= 9999 && ValidMonthIndex(dateMonth.monthIndex)
    requires 1000 <= keyMonth.year <= 9999 && ValidMonthIndex(keyMonth.monthIndex)
    ensures IsSameMonth(Some(MonthKeyFromParts(dateMonth.year, dateMonth.monthIndex) + day),
                        MonthKeyFromParts(keyMonth.year, keyMonth.monthIndex))
      <==> dateMonth == keyMonth
  {
    var dk := MonthKeyFromParts(dateMonth.year, dateMonth.monthIndex);
    var kk := MonthKeyFromParts(keyMonth.year, keyMonth.monthIndex);
    MonthKeyLength(dateMonth);
    MonthKeyLength(keyMonth);
    if kk <= dk + day {
      assert kk == (dk + day)[..7] == dk;
      ParseOfMonthKey(dateMonth.year, dateMonth.monthIndex, dateMonth);
      ParseOfMonthKey(keyMonth.year, keyMonth.monthIndex, dateMonth);
    }
  }

  /** A key with a four-digit year has seven characters. */
  lemma MonthKeyLength(m: MonthParts)
    requires 1000 <= m.year <= 9999 && ValidMonthIndex(m.monthIndex)
    ensures |MonthKeyFromParts(m.year, m.monthIndex)| == 7
  {
    NatToStringFourDigits(m.year);
    PaddedMonth(m.monthIndex + 1);
  }
}
