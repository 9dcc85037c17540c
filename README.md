# Monthly KPI aggregation engine — a Dafny model

This project models the aggregation engine of a telecom KPI dashboard (`index.js`). The engine reads a flat list of daily rows. Each row has a date (`YYYY-MM-DD`), an operation code (`DRC`, `SL`, `GM`, `AO`, …) and, for each company (`Africell`, `Afrimoney`), a map from field name to number. From these rows it computes month-scoped figures:

- **Month keys.** `getSelectedMonthParts` validates the `YYYY-MM` text of the month selector and falls back to the current month. `monthKeyFromParts` builds a `YYYY-MM` key with a zero-padded month. `addMonths` steps months through JavaScript's `Date`. `getMonthLabels` derives the keys of the selected month, the month before it and the same month a year earlier.
- **Rules and rows.** `getRule` finds a field's aggregation rule: the field's own rule, else the configured default, else `"sum"`. `isSameMonth` and `filterRows` keep the rows of a month and, unless the selector is `"All"`, of one operation.
- **Field aggregation.** `aggregateFieldForMonth` has three branches:
  - the `sum` rule adds the field over the kept rows;
  - the `last` rule for one operation sorts the rows by date and reads the last one;
  - the `last` rule for `"All"` does that per listed operation and adds the results.
- **KPIs.** `aggregateKpiForMonth` adds the Africell and Afrimoney sides of a KPI. `ShowKPIsPanel` shows three months for one operation, or for `"All"` a per-operation table with column totals.
- **Daily series.** `buildDailySeries` totals the month's rows per date in a `Map`, then sorts the entries by date.

The data (`APP_DATA`) is an explicit `Option<AppData>` parameter; missing data is `None`. The current date used as the selector's fallback is a parameter (`now`). A missing company or field in a row reads as 0, as `Number(x || 0)` does for absent values.

The model is split into modules:

- `Strings`: code-unit order on strings and decimal text.
- `Seqs`: `filter`, `map` and the summing `reduce`.
- `Sorting`: stable sort by a string key, as a function and as an in-place array method.
- `MonthKeys`, `Dataset`, `Aggregation`, `DailySeries`: the engine itself.

Dates are compared by `localeCompare` in the source. On the canonical `YYYY-MM-DD` strings the data holds, that agrees with code-unit lexicographic order, and the model uses that order (`LexLe`). `Array.prototype.sort` is stable. The model sorts by stable insertion sort and characterises the last element of the result independently (`LatestIndex`): the element with the greatest date, and among elements tied on that date the one that comes last in the input.

One edge case of `addMonths` is modelled as written. `new Date(y, m, 1)` reads the years 0..99 as 1900..1999. So for a selected year in 0..99 the previous month's key lands in 1899..1999 (December 1899 when January of year 0 is selected), while the last-year key (`year - 1`, built without `Date`) does not (`MonthKeys.PreviousMonthOfTwoDigitYear`).

## Model

| member | source | states |
|---|---|---|
| Strings.LexLeIsTotalOrder | index.js:125 | the order the date comparator induces is reflexive, total, transitive and antisymmetric, so sorting by it is well defined |
| Strings.NatToString | index.js:40-41 | `String(n)` of a natural number is a non-empty run of digits, longer than one digit exactly when n ≥ 10 |
| Strings.DigitsValueOfNatToString | index.js:29-30 | reading back the decimal text of n gives n |
| MonthKeys.PadStart2 | index.js:40 | `padStart(2, "0")`: the result has length max(\|s\|, 2), ends with s, and is zero-filled on the left |
| MonthKeys.PaddedMonth | index.js:40 | a month number 1..12, padded, is two digits that read back as that month |
| MonthKeys.MonthKeyFromParts | index.js:39-42 | the year in decimal, a dash and the padded 1-based month; its meaning is given by `MonthKeyIsMonthText`, `ParseOfMonthKey` and `MonthKeyOfParse` |
| MonthKeys.MonthKeyIsMonthText | index.js:39-42 | a four-digit year and a valid month index format to text the month selector accepts |
| MonthKeys.SelectedMonthParts | index.js:20-37 | text that does not match `^\d{4}-\d{2}$` with a month in 1..12 yields the fallback month unchanged; accepted text yields a year in 0..9999 and a month index in 0..11 |
| MonthKeys.ParseOfMonthKey | index.js:27-42 | the key of a year in 1000..9999 and a valid month index is accepted by the selector and parses back to that year and month |
| MonthKeys.MonthKeyOfParse | index.js:27-42 | accepted month text whose year has no leading zero is reproduced by formatting its parsed parts |
| MonthKeys.AddMonths | index.js:44-47 | the result's month index is in 0..11 and `year*12 + monthIndex` moves by exactly `delta` from the month `new Date` reads (two-digit years taken as 19xx) |
| MonthKeys.PreviousMonth | index.js:44-47 | outside the years 0..99, one month back from January is December of the year before, and from any other month is the month before in the same year |
| MonthKeys.PreviousMonthOfTwoDigitYear | index.js:44-47 | for the years 0..99 `new Date` steps back from 1900 + year: January goes to December of 1899 + year, any other month to its predecessor in 1900 + year |
| MonthKeys.PeriodKeysOf | index.js:54-63 | the current, previous and last-year keys; their meaning is given by `CurrentKeyMeaning`, `PreviousKeyMeaning` and `LastYearKeyMeaning` below |
| MonthKeys.CurrentKeyMeaning | index.js:57-63 | the current key of a valid month with a four-digit year parses back to that month |
| MonthKeys.PreviousKeyMeaning | index.js:54-63 | for a selected year in 1001..9999, the previous key parses to December of the year before when the selected month is January, else to the month before in the same year |
| MonthKeys.LastYearKeyMeaning | index.js:55-63 | for a selected year in 1001..9999, the last-year key parses to the same month index one year earlier |
| MonthKeys.PeriodKeysOfJanuary2026 | index.js:49-65 | for January 2026 the three keys are `2026-01`, `2025-12` and `2025-01` |
| Dataset.GetRule | index.js:91-94 | the field's own non-empty rule wins; else the non-empty default rule; else `"sum"`; the rule is never empty |
| Dataset.Value | index.js:127-139 | a row's field reads as its stored number, and as 0 when the company or the field is missing; `FieldTotal` and `LastRuleTakesLatestRow` build the aggregates from it |
| Dataset.Operations | index.js:119 | the operation list of the data when it has one (an empty list is kept, since `[]` is truthy), else `DRC`, `SL`, `GM`, `AO`; `AllLastIsSumOfOperations` and `OperationLines` use it |
| Dataset.IsSameMonth | index.js:96-98 | the date is present and starts with the month key; `SameMonthOfCanonicalDate` proves that on canonical dates this is month equality |
| Dataset.FilterRows | index.js:100-108 | without data the result is empty; every kept row is dated in the month and, unless the selector is `All`, has the selected operation |
| Dataset.FilterRowsExact | index.js:100-108 | a row is kept, as often as the data holds it, exactly when it passes the month and operation test, and the kept rows are a subsequence of the data |
| Dataset.RowsOfOperationOfAll | index.js:103-107 | picking one operation out of the month's `All` rows gives exactly the month's rows filtered for that operation |
| Dataset.SameMonthOfCanonicalDate | index.js:96-98 | for a canonical date text, the prefix test holds exactly when the date's month and the key's month are the same |
| Sorting.LatestIndex | index.js:125-126 | the chosen element has the greatest date, and every element after it has a strictly earlier date |
| Sorting.LatestIndexUnique | index.js:125-126 | only one position has the greatest date with only earlier dates after it |
| Sorting.SortByKeySorted | index.js:125 | the stable sort's output ascends by date |
| Sorting.SortByKeyStrictlySorted | index.js:163-165 | when the dates are distinct the sort's output strictly ascends |
| Sorting.SortByKeyLast | index.js:125-126 | the last element of the stably sorted sequence is the latest element (`LatestIndex`) |
| Sorting.InsertInPlace | index.js:125 | one insertion step of the in-place sort places `a[i]` into the sorted prefix and leaves the rest of the array unchanged |
| Sorting.SortInPlace | index.js:125 | sorting the array in place leaves in it the stable sort of its old contents |
| Sorting.ToArray | index.js:163 | a fresh array holding exactly the given sequence |
| Seqs.FilterIsSubsequence | index.js:103 | `filter` keeps its input's elements in their original order |
| Seqs.SumOfPermutation | index.js:139 | the summing `reduce` does not depend on the order of its terms |
| Seqs.SumByKey | index.js:139 | when each element's key is listed exactly once, a sum over the elements is the sum over the keys of the per-key sums |
| Aggregation.SumOfLatestNoRows | index.js:119-123 | with no rows at all, the `All`/`last` sum is 0 |
| Aggregation.OperationWithoutRowsAddsNothing | index.js:123 | under the `last` rule for `All`, appending an operation that has no rows to the list leaves the sum unchanged |
| Aggregation.DropOperationsWithoutRows | index.js:119-128 | dropping every operation without rows from the list leaves the `All`/`last` sum unchanged, so only operations with rows contribute |
| Aggregation.FieldTotal | index.js:111-140 | a field that is absent or empty gives 0; a month and operation with no rows gives 0 |
| Aggregation.LastRowByDate | index.js:133-134 | sorting a copy of non-empty rows by date and taking the last gives the latest row |
| Aggregation.LatestPerOperation | index.js:119-128 | the `ops.forEach` loop adds, for each listed operation in turn, the field of its latest row (nothing for an operation without rows): the result is `SumOfLatest` |
| Aggregation.AggregateFieldForMonth | index.js:111-140 | computes exactly `FieldTotal`: the sum, the latest row's value, or the sum of each listed operation's latest value |
| Aggregation.LastRuleTakesLatestRow | index.js:132-135 | under the `last` rule for one operation, the result is the field of the row with the greatest date, the last of those tied on it |
| Aggregation.SumRuleOrderIndependent | index.js:139 | under the `sum` rule, reordering the data's rows does not change the result |
| Aggregation.AllLastIsSumOfOperations | index.js:117-130 | under the `last` rule, when `All` is not itself in the operation list, the `All` figure is the sum over the listed operations of each operation's own `last` figure |
| Aggregation.SumOfLatestSameOperations | index.js:121-128 | the `All`/`last` sum depends only on each listed operation's rows |
| Aggregation.AppendUnlistedKeepsOperationRows | index.js:119-122 | adding a row of an unlisted operation leaves every listed operation's month rows unchanged |
| Aggregation.AllLastIgnoresUnlistedOperation | index.js:119-128 | under the `last` rule, a row of an unlisted operation appended at the end of the data, whatever its date, leaves the `All` figure unchanged |
| Aggregation.UnlistedRowsContributeNothing | index.js:119-128 | under the `last` rule, dropping every row whose operation is not listed, wherever it sits in the data, leaves the `All` figure unchanged |
| Aggregation.AllSumIsSumOfOperations | index.js:139 | under the `sum` rule, when `All` is not itself in the operation list, the `All` figure is the sum of the per-operation figures when every row's operation is listed once |
| Aggregation.FieldAddsUp | index.js:111-140 | when `All` is not itself in the operation list, the `All` figure is the sum of the per-operation figures under the `last` rule, or under the `sum` rule with rows partitioned by the list |
| Aggregation.AggregateKpiForMonth | index.js:142-146 | the KPI's two sides are the two companies' field figures and the total is their sum; an unmapped Afrimoney field adds 0 |
| Aggregation.AllKpiIsSumOfOperations | index.js:142-146 | the `All` KPI total is the sum of the per-operation KPI totals when `All` is not itself in the operation list and each of the two fields is absent, under the `last` rule, or under the `sum` rule with the month's rows partitioned by the list |
| Aggregation.OperationLineFor | index.js:479-483 | one table line holds the operation's KPI totals for the previous, current and last-year months |
| Aggregation.OperationLines | index.js:478-484 | the table holds one line per listed operation, in list order |
| Aggregation.AllOperationsView | index.js:477-489 | each column total, reduced from the lines, is the sum over the listed operations of their KPI totals for that month |
| Aggregation.KpiPanel | index.js:404-489 | without data the panel shows nothing; for one operation it shows the three KPI totals; for `All`, the per-operation table and its column totals |
| Aggregation.TableTotalIsAllFigure | index.js:477-489 | the table's current-month total equals the `All` KPI total for that month when `All` is not itself in the operation list and each of the two fields is absent, under the `last` rule, or under the `sum` rule with the month's rows partitioned by the list |
| Aggregation.AllLastIsNotLatestRow | index.js:110-130 | for two operations with 100 on the 5th and 40 on the 20th, the `All`/`last` figure is 140, not the month's latest row (40) |
| DailySeries.TotalsMapValues | index.js:155-160 | after the loop, each date's entry is the total of that date's rows |
| DailySeries.TotalsMapKeys | index.js:155-160 | the map's keys are the dates in its insertion order |
| DailySeries.FirstDatesMembers | index.js:155-160 | the insertion order lists exactly the dates of the rows |
| DailySeries.FirstDatesDistinct | index.js:155-160 | the insertion order lists each date once |
| DailySeries.DateTotals | index.js:155-160 | the loop over the rows builds the date map and its insertion order |
| DailySeries.SeriesTotal | index.js:151-168 | a series with strictly ascending distinct dates, whose dates are the rows' dates and whose values are per-date totals, adds up to the rows' total |
| DailySeries.BuildDailySeries | index.js:151-168 | the dates strictly ascend; they are exactly the dates of the month's rows; each value is its date's total; the values add up to the total over all the rows |
| DailySeries.SeriesTotalIsKpiTotal | index.js:139-146 | under the `sum` rule for both fields, the series adds up to the month's KPI total for the same selection |

## Left out

- DOM and UI: reading the selectors, rendering cards, bars, panels and HTML templates, and closing the panel. `ShowKPIsPanel` is modelled only for the figures it computes. Looking up the KPI by its displayed name is a parameter (`kpi`).
- Chart.js configuration in `ensureTrendChart`: a foreign library.
- `fetch` in `initDashboard`: network I/O. The loaded data is a parameter.
- `setTimeout` and `requestAnimationFrame`: timers only sequence animations.
- Floating point and locale code: bar percentages, `formatNumber`, and the `toLocaleString` labels of `getMonthLabels` and `prettyDayLabel`. Field values are integers.
- `Number(...)` coercion of arbitrary text (`NaN`): every present field value is an integer; a missing company or field reads as 0.
- The live clock: `new Date()` in `getSelectedMonthParts` is the parameter `now`.
- `trim()` of the selector text: `SelectedMonthParts` takes the text already trimmed (the whitespace set of `trim` is not modelled).
- `Date` range limits: years are unbounded integers.
- Dates that are not canonical `YYYY-MM-DD` text: dates are ordered by code-unit comparison, which is what `localeCompare` does on canonical dates but not for every string.
- A row without an operation and a KPI without an Africell field: every row has an operation code and every KPI names its Africell field (`KpiMap.afr` is a string; `afm` may be absent).
- datepicker.js is not part of this model: it is a DOM month-picker widget whose text parsing repeats the `YYYY-MM` handling modelled from `index.js`.
- Sorting the filtered array itself: `aggregateFieldForMonth` sorts the array `filter` returned; no code outside the function sees that in-place reordering, and the model reads the last element of a sorted copy: it sorts a fresh array with the stable insertion sort `Sorting.SortInPlace`; the comparison count of the engine's own sort algorithm is not modelled.
