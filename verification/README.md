# CC line daily report — verified model of the KPI pipeline

`generate_report.py` builds a daily report for a production line. It takes a
table of per-day, per-shift production records (date, shift, output, scrap,
first-pass yield FPY, overall equipment effectiveness OEE, defect type),
keeps the rows of today (or, if there are none, of the latest date in the
table), reduces them to KPIs (total output, total scrap, mean FPY, mean OEE,
most frequent defect type), turns the KPIs into a short list of insights by
three fixed threshold checks, and renders and emails a PDF page.

This project models, in Dafny, the part between the table and the page:

- `production.dfy` (module `Production`): the row datatype and the value ranges
  the data source draws from (output 800..1199, scrap 20..49, FPY in
  [0.85, 0.99], OEE in [0.65, 0.9], four defect labels, three shift labels).
  Dates are day numbers: only equality and maximum are used.
- `day_selection.dfy` (module `DaySelection`): today's rows, with the
  latest-date fallback, as functions over `seq<Row>`.
- `kpis.dfy` (module `Kpis`): column sums, means over `real`, defect counts and
  the most frequent defect type, and the aggregation into a `Summary`.
- `insights.dfy` (module `Insights`): the insight list, built by a method that
  appends to a local sequence step by step, as the script does.
- `report.dfy` (module `Report`): the pipeline from table and `today` to KPIs
  and insights.
- `thousands.dfy` (module `Thousands`): the thousands-grouped rendering of the
  total output on the report page (`{total_output:,}`).
- `sequences.dfy` (module `Sequences`): the order-preserving subsequence
  relation.
- `outcomes.dfy` (module `Outcomes`): a `Result` datatype for aggregation
  that can fail.

Notes on how the model reads the script:

- pandas leaves the order of equal counts in `value_counts().idxmax()`
  unspecified, so `Kpis.TopDefect` promises only a mode: a defect type that
  occurs in the selection and that no other type outnumbers.
- On an empty table the date filter yields an empty selection, and the script
  then fails at `idxmax`. `DaySelection.SelectDay` returns the empty selection
  and `Kpis.Aggregate` returns `Err(EmptySelection)`.
- FPY and OEE are drawn from [0.85, 0.99) and [0.65, 0.9); the model bounds
  them by the closed intervals.

## Model

| member | source | states |
|---|---|---|
| `DaySelection.RowsOn` | generate_report.py:29 | the rows dated `day`: each row of that date with its multiplicity in the table, and no row of any other date |
| `DaySelection.RowsOnIsSubseq` | generate_report.py:29 | the rows of one day keep their table order: they form an order-preserving subsequence of the table |
| `DaySelection.MaxDate` | generate_report.py:31 | the latest date is the date of some row and no row is dated later |
| `DaySelection.SelectDay` | generate_report.py:28-31 | if some row is dated today the selection is today's rows; otherwise it is the rows of the latest date; it is non-empty exactly when the table is; all selected rows share one date |
| `DaySelection.SelectedDay` | generate_report.py:28-31 | the day selected is `today` whenever some row is dated today; otherwise it is a date present in the table that no row exceeds |
| `DaySelection.SelectionIsDay` | generate_report.py:29-31 | the selection is an order-preserving subsequence of the table holding every row of the selected day, with multiplicity, and nothing else |
| `DaySelection.SelectionSchema` | generate_report.py:29-31 | selecting from a well-formed table gives well-formed rows |
| `Kpis.TotalsInRange` | generate_report.py:34-35 | about the column sums `Kpis.TotalOutput` and `Kpis.TotalScrap`: with n rows drawn from the schema, total output is in [800n, 1199n] and total scrap in [20n, 49n] |
| `Kpis.MeanInRange` | generate_report.py:36-37 | about `Kpis.Mean` (sum over count): a column mean lies between any lower and upper bound of the column's values, hence between its minimum and maximum |
| `Kpis.ModeFrom` | generate_report.py:38 | the defect type kept by the scan occurs in the rows and counts at least as often as every type seen from the scan position on |
| `Kpis.TopDefect` | generate_report.py:38 | the top defect occurs in the selection and no defect type occurs more often |
| `Kpis.Aggregate` | generate_report.py:34-38 | aggregation succeeds exactly on a non-empty selection, and its top defect is a mode of the selection |
| `Kpis.AggregateInRange` | generate_report.py:34-38 | on a well-formed selection of n rows: output total in [800n, 1199n], scrap total in [20n, 49n], mean FPY in [0.85, 0.99], mean OEE in [0.65, 0.9], top defect one of the four labels |
| `Kpis.ScrapRateInRange` | generate_report.py:60 | about `Kpis.ScrapRate` (scrap total over output total): on a well-formed non-empty selection the output total is positive, so the scrap rate is defined, and it lies in [20/1199, 49/800] |
| `Insights.ScrapWarning` | generate_report.py:47 | the scrap warning embeds the top defect type after its fixed prefix |
| `Insights.BuildInsights` | generate_report.py:41-49 | one to three entries, each one of the four messages; each warning is present exactly when its strict comparison holds (FPY below 0.9, OEE below 0.75, scrap above 300); entries follow the check order with no repeats; the healthy message is present exactly when no check fires, and then it is the only entry |
| `Report.GenerateReport` | generate_report.py:28-49 | the pipeline fails exactly on an empty table; otherwise its KPIs are the aggregation of the selected day, and its insight list has one to three entries, each warning present exactly when its strict comparison holds, entries in check order without repeats, the healthy message present exactly when no check fires and then alone; on a well-formed table the output total is positive and the scrap rate bounded |
| `Thousands.DecimalValue` | generate_report.py:59 | the plain decimal numeral of n denotes n |
| `Thousands.GroupedStripsToDecimal` | generate_report.py:59 | about `Thousands.Grouped`, the `{:,}` rendering of a non-negative total: deleting the commas gives the plain decimal numeral |
| `Thousands.GroupedShape` | generate_report.py:59 | the grouped rendering is one to three digits followed by groups of a comma and exactly three digits, with no leading zero except for 0 |
| `Thousands.FormatThousandsDigits` | generate_report.py:59 | about `Thousands.FormatThousands`: the rendering of any integer, commas deleted, is its signed decimal numeral |

## Left out

- Random data synthesis (generate_report.py:14-25): the table is an input; `Production.Schema` states the ranges the generator draws from. That the table spans a contiguous month with three shifts per day is not modelled; no property depends on it.
- The clock read `datetime.today()` (generate_report.py:28): `today` is a parameter.
- Floating point: FPY and OEE are exact reals, so rounding in sums and means is not modelled. Only comparisons with 0.9 and 0.75 use them.
- Production.WellFormed: uses closed ranges for FPY and OEE, although `np.random.uniform` draws from half-open ones. This is weaker, so every bound proved still holds.
- Kpis.TopDefect: does not fix which defect type is chosen among equally frequent ones, because pandas leaves that order unspecified.
- PDF rendering with reportlab (generate_report.py:52-73): the page layout and its line-by-line offset loop, the ISO date title, and the percentage formatting of the scrap rate, FPY and OEE. `Kpis.ScrapRate` models only the division on line 60. `Thousands.FormatThousands` models the grouped total on line 59 as a standalone function.
- Email delivery (generate_report.py:76-95): environment variables, MIME construction and the SMTP session are I/O.
- Division by zero in the scrap rate for a zero output total: `Kpis.ScrapRate` requires a non-zero total. The script divides numpy int64 values there, which gives inf or nan with a runtime warning and renders as "inf%" or "nan%" rather than raising; that outcome is not modelled. `Kpis.ScrapRateInRange` shows that a well-formed non-empty selection always has a non-zero total.
- Integer width: `.sum()` on the int64 output and scrap columns (generate_report.py:34-35) wraps on overflow; `Kpis.TotalOutput` and `Kpis.TotalScrap` are unbounded integers. Under the schema the totals stay far below 2^63 for any table that fits in memory.
