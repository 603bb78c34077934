# PAC simulator: the accumulation-plan engine and its store

This project models the core of a recurring-investment ("PAC", periodic
capital accumulation) simulator and proves properties of the model.

- **The engine** (`simulatePac`). It walks over `durationMonths` months. Each
  month it pays in the periodic contribution when the month is a multiple of
  the contribution interval, and adds it to a gross track, a net track and
  the running total. It then grows both tracks by `1 + monthlyReturn`,
  charges the net track alone a flat monthly fee of `annualFeePct / 1200`, and
  pushes a point labelled "MM/YYYY". After the loop it derives a summary:
  the final values, the absolute gains and the percentage gains, with 0 in
  place of a division by a zero total.
- **The store** (`usePacStore`). It holds the current plan input and the
  simulation result. It starts from a default plan, merges partial updates
  into the input with `setInput`, and re-runs the simulation with
  `recompute`. Every transition keeps the result equal to the simulation of
  the input.

Files:

- `wrappers.dfy`: `Option`.
- `pac_types.dfy`: the records of `src/types/pac.ts`. `PacInput` has the
  eight fields the store's default plan sets, two of which
  (`inflationRatePct`, `showInflationAdjusted`) the engine ignores.
  `PacPoint` and `PacSummary` have the fields the engine fills.
- `month_label.dfy`: calendar-month arithmetic, decimal rendering and the
  "MM/YYYY" label, with a parser that inverts it.
- `month_overflow.dfy`: the label as `formatMonthLabel` computes it, with
  the start date's day of month, and where it differs from the
  calendar-month label (see "## Findings").
- `pac.dfy`: the engine. `Simulate` and the functions under it define the
  series and the summary. `SimulatePac` is the engine's loop as written,
  proved to return exactly `Simulate`.
- `pac_properties.dfy`: what the engine guarantees about its output.
- `pac_store.dfy`: the default plan, the partial-update merge and the store
  class.

Modelling choices:

- Amounts are exact `real`s.
- The monthly return root `(1 + annualReturnRatePct / 100)^(1/12) - 1` is a
  parameter `monthlyReturn` of the engine. The store is given the root as a
  function `monthlyReturnOf`.
- The start date is a calendar month `YearMonth(year, month0)`. The store's
  reading of the wall clock is a parameter `today` of each method.
- `durationMonths` is a `nat`.
- `src/types/pac.ts:1` declares a `biweekly` frequency, and
  `src/lib/pac.ts:22` gives every frequency other than `monthly` an
  interval of 3 months. So `biweekly` contributes quarterly, in the model
  as in the code.
- `src/types/pac.ts:7, 9, 19, 24, 31, 34, 37` declare a contribution window,
  a start age, a point age and inflation-adjusted values. `simulatePac`
  never reads or fills them, so the model's records leave them out.

## Model

| member | source | states |
|---|---|---|
| MonthLabel.AddMonths | src/lib/pac.ts:14-15 | shifting a month by `k` gives a valid month (0..11) whose month number is `k` more; an overflowing month carries into the year |
| MonthLabel.AddMonthsCompose | src/lib/pac.ts:15 | shifting by `j` and then by `k` is shifting by `j + k` |
| MonthLabel.NatToDecimal | src/lib/pac.ts:16 | `String(n)` for a natural number: non-empty, digits only, no leading zero, and one character exactly when `n < 10` |
| MonthLabel.DecimalRoundTrip | src/lib/pac.ts:16 | the rendered digits read back as `n` |
| MonthLabel.IntToDecimal | src/lib/pac.ts:16 | `String(year)`: a leading minus sign exactly for negative years, digits elsewhere, and no leading zero |
| MonthLabel.IntRoundTrip | src/lib/pac.ts:16 | the rendered year reads back as the year |
| MonthLabel.PadStartShape | src/lib/pac.ts:16 | `padStart(width, fill)` yields `max(width, len(s))` characters: fill characters, then `s` unchanged |
| MonthLabel.TwoDigitMonth | src/lib/pac.ts:16 | the padded month is two digits that read back as `month0 + 1` |
| MonthLabel.LabelShape | src/lib/pac.ts:16 | every label is two digits reading as the month number 1..12, a slash, and the text of the year, which reads back as that year |
| MonthLabel.ParseMonthLabel | src/lib/pac.ts:16 | reading a label back gives a valid month or nothing |
| MonthLabel.PadStart | src/lib/pac.ts:16 | `String.prototype.padStart`; its meaning is stated by `PadStartShape` |
| MonthLabel.FormatMonthLabel | src/lib/pac.ts:13-17 | the label of the calendar month `monthIndex` months after the start; its meaning is stated by `LabelShape` and `LabelRoundTrip` |
| MonthLabel.LabelRoundTrip | src/lib/pac.ts:13-16 | the label of the month `k` months after the start reads back as exactly that month |
| Pac.FormRanges | src/components/PacForm.tsx:6-13 | the zod schema's ranges; what they imply is stated by `FormRangesBoundFeeDrag` |
| Pac.MonthlyFeeRate | src/lib/pac.ts:8-11 | the monthly fee is `annualFeePct / 1200`, at most 1/12 when the annual fee is in [0, 100] |
| Pac.ContributionInterval | src/lib/pac.ts:22 | the interval is 1 exactly for `monthly` and 3 for every other frequency |
| Pac.Contribution | src/lib/pac.ts:31-32 | the month's contribution; its schedule is stated by `ContributionSchedule` and `ContributedByClosedForm` |
| Pac.Step | src/lib/pac.ts:35-44 | one month: contribute, grow both tracks, charge the fee on the net track; stated by `TracksAfterSucc`, `TotalAfter`, `TracksOrdered` and `GrossIgnoresFee` |
| Pac.Initial | src/lib/pac.ts:26-28 | all three running values start at the initial capital; stated by `ZeroDuration` and `TotalAfter` at month 0 |
| Pac.TracksFrom | src/lib/pac.ts:30-44 | the loop as a recursion: `k` more steps from the values `s` at month `m`; stated by `TracksFromSucc` |
| Pac.TracksAfter | src/lib/pac.ts:26-44 | the running values after the first `months` months, `TracksFrom` started at `Initial`; stated by `TracksAfterSucc` |
| Pac.PointAt | src/lib/pac.ts:46-53 | the point pushed for a month; stated by `PointValues`, `ContributionSchedule` and `PointLabel` |
| Pac.TracksFromSucc | src/lib/pac.ts:30-44 | running one more month is one more step applied at the end |
| Pac.TracksAfterSucc | src/lib/pac.ts:30-44 | the values after month `m + 1` are one step from those after month `m` |
| Pac.Points | src/lib/pac.ts:30-53 | the first `n` months push `n` points |
| Pac.PointsSnoc | src/lib/pac.ts:46-53 | one more month appends that month's point to the series |
| Pac.PercentGain | src/lib/pac.ts:62-63 | the guarded percentage; its meaning is stated by `PercentGainMeaning` |
| Pac.PercentGainMeaning | src/lib/pac.ts:62-63 | with a positive total the percentage gain times the total is 100 times the gain; otherwise it is 0 |
| Pac.Summarize | src/lib/pac.ts:56-75 | the summary total is the loop's total; the finals are the last point's values, or the loop's values when there is no point; each absolute gain plus the total is its final value; the percentages are gain / total * 100 with a positive total and 0 otherwise |
| Pac.Series | src/lib/pac.ts:30 | a run has one point per month |
| Pac.Simulate | src/lib/pac.ts:19-77 | `durationMonths` points; the summary total and finals are the last point's values, or the initial capital for an empty run; gains are final minus total; percentages are gain / total * 100 with a positive total and 0 otherwise |
| Pac.SimulatePac | src/lib/pac.ts:19-77 | the loop, with its three running values and its pushes, returns exactly `Simulate` |
| PacProperties.SeriesShape | src/lib/pac.ts:30-47 | `durationMonths` points, point `i` has `monthIndex == i + 1`, and the indices strictly increase |
| PacProperties.PointValues | src/lib/pac.ts:46-53 | the point of month `i` holds the running values after that month |
| PacProperties.ContributionSchedule | src/lib/pac.ts:22-32 | point `i` pays in the periodic amount exactly when `i` is a multiple of the interval, and 0 otherwise |
| PacProperties.CeilMonths | src/lib/pac.ts:22-32 | the result is ceil(k / interval): the least count whose multiple of the interval reaches `k` |
| PacProperties.ContributionMonthsClosedForm | src/lib/pac.ts:22-32 | among the first `k` months, ceil(k / interval) are contribution months |
| PacProperties.ContributedByCount | src/lib/pac.ts:31-32 | the contributions of the first `k` months are the periodic amount times the number of contribution months |
| PacProperties.ContributedByClosedForm | src/lib/pac.ts:22-32 | the first `k` months pay in `periodicContribution * ceil(k / interval)` |
| PacProperties.TotalAfter | src/lib/pac.ts:28-37 | the running total after `k` months is the initial capital plus the contributions so far |
| PacProperties.SumOfPointContributions | src/lib/pac.ts:32-49 | the `contribution` fields of the first `k` points add up to the contributions of the first `k` months |
| PacProperties.TotalIsRunningSum | src/lib/pac.ts:28-50 | at each point the total is the initial capital plus the contributions of the points up to and including it |
| PacProperties.TotalAfterClosedForm | src/lib/pac.ts:22-37 | after `k` months the total is the initial capital plus ceil(k / interval) periodic contributions |
| PacProperties.ContributedByMonotone | src/lib/pac.ts:32-37 | with a non-negative periodic amount the contributions of more months are never less |
| PacProperties.TotalNonDecreasing | src/lib/pac.ts:37-50 | with a non-negative periodic amount a later point's total is never below an earlier one's |
| PacProperties.TotalWithoutContributions | src/lib/pac.ts:28-50 | with no periodic amount every point's total is the initial capital |
| PacProperties.ZeroDuration | src/lib/pac.ts:30-63 | a zero-month run has no points, every final is the initial capital and every gain is 0 |
| PacProperties.NoFeeTracksAgree | src/lib/pac.ts:40-44 | without a fee the net track equals the gross track after every month |
| PacProperties.NoFeeNetEqualsGross | src/lib/pac.ts:40-52 | without a fee every point's net value is its gross value |
| PacProperties.GrossIgnoresFee | src/lib/pac.ts:35-44 | after every month, the gross track and the total are the same whatever the fee |
| PacProperties.FeeOnlyOnNet | src/lib/pac.ts:35-53 | at every point, changing the fee changes neither the gross value, the total, the contribution nor the label |
| PacProperties.ScaleKeepsOrder | src/lib/pac.ts:40-44 | growing by a non-negative factor and keeping a fraction in [0, 1] keeps values ordered and non-negative |
| PacProperties.TracksOrdered | src/lib/pac.ts:26-44 | with non-negative capital and contributions, a fee in [0, 100] and `monthlyReturn >= -1`, after every month 0 <= net <= gross |
| PacProperties.GrossAtLeastNet | src/lib/pac.ts:40-52 | under those ranges every point has 0 <= net value <= gross value |
| PacProperties.FinalGrossAtLeastNet | src/lib/pac.ts:56-58 | under those ranges the summary has 0 <= final net <= final gross |
| PacProperties.FormRangesBoundFeeDrag | src/components/PacForm.tsx:6-13 | every input the form accepts, with a return root of at least -1, meets those ranges |
| PacProperties.FlatTracks | src/lib/pac.ts:35-44 | with no return and no fee both tracks equal the total after every month |
| PacProperties.NoGrowthNoFee | src/lib/pac.ts:35-52 | with no return and no fee every point's two values equal its total |
| PacProperties.MonthlyExample | src/lib/pac.ts:30-53 | 100 a month for 12 months from 0, flat and free of fees: the last point shows 1200 paid in and 1200 on both tracks |
| PacProperties.MonthlyExampleSummary | src/lib/pac.ts:56-75 | that run's summary: 1200 paid in, 1200 on both tracks, no gain |
| PacProperties.GrossCompounds | src/lib/pac.ts:26-40 | without contributions the gross track after `k` months is the capital compounded `k` times: capital * (1 + monthlyReturn)^k |
| PacProperties.PointCompounds | src/lib/pac.ts:26-51 | without contributions point `i` shows the capital times (1 + monthlyReturn)^(i + 1) |
| PacProperties.PointLabel | src/lib/pac.ts:13-48 | point `i`'s label reads back as the start month shifted by i + 1 months |
| PacProperties.ConsecutiveLabels | src/lib/pac.ts:13-48 | consecutive points are labelled with consecutive calendar months |
| PacStore.DefaultInput | src/store/usePacStore.ts:13-22 | the default plan is one the form accepts, with 120 months |
| PacStore.DefaultTotal | src/store/usePacStore.ts:13-28 | whatever the return, the default plan's summary shows 12000 paid in |
| PacStore.Merge | src/store/usePacStore.ts:30 | the object spread `{ ...input, ...partial }`; its meaning is stated by `MergeFields` |
| PacStore.MergeNothing | src/store/usePacStore.ts:30 | an empty update leaves the input unchanged |
| PacStore.MergeAll | src/store/usePacStore.ts:30 | an update that sets every field replaces the input |
| PacStore.MergeIdempotent | src/store/usePacStore.ts:30 | applying the same update twice is applying it once |
| PacStore.MergeCombine | src/store/usePacStore.ts:30 | two updates in a row are one combined update in which the later one's fields win |
| PacStore.MergeFields | src/store/usePacStore.ts:30 | each field the update sets takes the update's value; each field it does not set keeps its old value |
| PacStore.Store.constructor | src/store/usePacStore.ts:27-28 | a fresh store holds the default plan, and its result is the simulation of that plan |
| PacStore.Store.SetInput | src/store/usePacStore.ts:29-32 | the input becomes the merge of the old input and the update, and the result is its simulation |
| PacStore.Store.Recompute | src/store/usePacStore.ts:33-36 | the input is unchanged and the result is its simulation; in the month of the last simulation the result does not change |
| PacStore.SetNothingKeepsState | src/store/usePacStore.ts:29-32 | an empty update in the month of the last simulation changes neither input nor result |
| DateOverflow.SetMonth | src/lib/pac.ts:15 | `setMonth` yields a valid date in the target calendar month or in the month after it |
| DateOverflow.SetMonthTarget | src/lib/pac.ts:14-15 | `setMonth` lands in the target month when the start day exists there, and in the month after it otherwise |
| DateOverflow.AsWrittenLabelNames | src/lib/pac.ts:13-17 | the label as written reads back as the month `setMonth` landed in |
| DateOverflow.AsWrittenAgreesEarlyInMonth | src/lib/pac.ts:13-17 | from a start day of 1 to 28 the label as written is the calendar-month label |
| DateOverflow.LabelledMonthAsWritten | src/lib/pac.ts:13-15 | the month of the start date after `setMonth(getMonth() + monthIndex)`; its meaning is stated by `SetMonthTarget`, `AsWrittenLabelNames` and `OverflowRepeatsLabel` |
| DateOverflow.FormatMonthLabelAsWritten | src/lib/pac.ts:13-17 | the label `formatMonthLabel` returns; its meaning is stated by `AsWrittenLabelNames` and `AsWrittenAgreesEarlyInMonth` |
| DateOverflow.AfterShortMonth | src/lib/pac.ts:15 | the month after a month shorter than 31 days has 31 days |
| DateOverflow.BeforeShortMonth | src/lib/pac.ts:15 | the month before a month shorter than 31 days has 31 days |
| DateOverflow.OverflowRepeatsLabel | src/lib/pac.ts:13-17 | when the start day does not exist `k` months on, points `k` and `k + 1` are both labelled with the month after, and point `k - 1` with the month before |
| DateOverflow.OverflowSkipsMonth | src/lib/pac.ts:13-17 | in that case no point, whatever its index, is labelled with the month `k` months on |
| DateOverflow.LastOfJanuary | src/lib/pac.ts:14-19 | a start on 31 January 2024 meets that condition one month on |

## Left out

- The monthly return root (`src/lib/pac.ts:3-6`) is computed in floating point by `Math.pow`. It is a parameter here. Its value enters the lemmas only through the `monthlyReturn >= -1` the order lemmas require, and through `FlatTracks`, `NoGrowthNoFee`, `MonthlyExample` and `MonthlyExampleSummary`, which take it to be 0 (the root for a 0% annual return).
- PacProperties.PointCompounds: states the growth of month `i` as `(1 + monthlyReturn)^(i + 1)`. It does not state the one-year rate round trip (twelve months reproduce `1 + annualReturnRatePct / 100`), because that follows only from the floating-point root, which is not modelled.
- IEEE-754 rounding, NaN and infinities are not modelled. Amounts are exact reals.
- The engine model labels points by calendar month and does not model the day-of-month overflow of `Date.setMonth` (`src/lib/pac.ts:14-15`). The overflow does change the label when the start day is 29, 30 or 31 (see "## Findings"). So `PointLabel` and `ConsecutiveLabels` hold for the code as written only for start days 1 to 28 (`AsWrittenAgreesEarlyInMonth`). The same goes for `Store.Recompute`'s clause that a re-run in the same month leaves the result unchanged: with a start day of 29 to 31 a re-run later or earlier in the month can change the labels.
- Local time zones are not modelled.
- The wall-clock default `startDate = new Date()` (`src/lib/pac.ts:19`) is a parameter. The store does not read the clock itself.
- Non-integer, negative or non-finite `durationMonths` are not modelled. The form admits only integers of at least 1.
- The `persist` middleware and its localStorage round trip (`src/store/usePacStore.ts:25, 38`) are storage I/O and are not modelled.
- The zustand `set`/`get` machinery and subscriber notification are not modelled. The store's two fields are updated directly.
- A partial update whose fields are present but `undefined` is not modelled. In JavaScript such a field overwrites the old value with `undefined`. Here a field is either set to a value or absent.
- The form's debouncing, event handling and zod validation (`src/components/PacForm.tsx`) are not modelled. Only the schema ranges appear, as `FormRanges`.
- The chart, summary and CSV components and the theme toggle, icons and app shell are presentation only, and are not modelled.
- The declared but never-filled fields `contributionDurationMonths`, `startAgeYears`, `ageYears` and the inflation-adjusted values (`src/types/pac.ts:7, 9, 19, 24, 31, 34, 37`) are not modelled. The engine never sets them.

## Findings

| source | as written | input that shows it | evidently intended | confidence | as-written member | corrected member |
|---|---|---|---|---|---|---|
| src/lib/pac.ts:13-17 | `formatMonthLabel` copies the start date with its day of month and calls `setMonth`; a day that does not exist in the target month rolls over into the next month | start on 31 January 2024: the points with `monthIndex` 1 and 2 are both labelled "03/2024", and "02/2024" never appears | point `k` is labelled with the calendar month `k` months after the start | not executed | DateOverflow.OverflowRepeatsLabel | MonthLabel.LabelRoundTrip |
