# Safe-harbour rules kernel, modelled in Dafny

The safe-harbor app helps plan renewable-energy projects under the U.S.
"Beginning of Construction" (BOC) rules. Most of the app is user interface.
This project models the rules kernel inside it:

- **5% safe-harbour test.** A project's allocated cost as a percentage of its
  total cost is rounded to two decimals. The project qualifies when that
  rounded figure is at least 5.0.
- **BOC track classifier.** Capacity (split at 1.5 MW) and payment date
  (against 2025-12-31 and 2026-07-04) decide the project's track label and
  whether it is eligible. The classifier also returns a warning flag and a
  details line.
- **Deadlines.** The 105-day delivery deadline is the payment date plus 105
  calendar days. The placed-in-service deadline is December 31 of the
  payment year plus four. Both are computed by changing a date in place.
- **Project list and dashboard.** A new project is appended with the next
  sequential id. The dashboard counts projects, 5%-qualified projects and
  FEOC-eligible projects, and sums the allocated costs.
- **Liquidated damages.** The contract's liquidated-damages figure is 5% of
  the total price.

Modules:

- `Calendar` (`calendar.dfy`) holds proleptic Gregorian dates. `DayNumber`
  (days-from-civil) and `CivilFromDays` are proved to be inverse to each
  other. `Normalize` is the calendar's overflow rule: a day of month outside
  the month rolls into the next or previous month.
- `Deadlines` (`deadlines.dfy`) holds a `MutableDate` class with the three
  setters the source calls, and the two deadline methods built on it.
- `SafeHarbor` (`safe_harbor.dfy`) holds the percentage, the qualification
  test and the liquidated-damages figure.
- `BocTrack` (`boc_track.dfy`) holds the track classifier.
- `Portfolio` (`portfolio.dfy`) holds projects, the dashboard aggregates and
  the `ProjectList` class.

Units:

- Money is a whole number of cents.
- Capacity is a whole number of kilowatts AC, so the 1.5 MW split is exactly
  1500.
- A percentage is a whole number of hundredths of a percent. Rounding to two
  decimals is written out as rounding half up to the nearest hundredth.

Behaviour taken from the code (safe-harbor-app/src/App.jsx):

- A total cost of zero is not rejected. 0/0 gives NaN, which fails the
  `>= 5.0` test. A positive amount over 0 gives Infinity, which passes it.
  `SafeHarborPercentage` returns `NotANumber` or `Infinity` for these two
  cases.
- Because the rounded value is compared, any share of at least 4.995% passes
  (`Qualified`, `RoundingAdmitsJustUnderFive`).
- The large-project label reads "FEOC Exemption Only (5% safe harbor
  available)". Its details line reads "Projects >1.5MW cannot use 5% safe
  harbor for ITC/PTC after 9/2/25".
- Project records carry no risk group and no compliance flags, because the
  code stores neither.

## Model

| member | source | states |
|---|---|---|
| `Calendar.Normalize` | safe-harbor-app/src/App.jsx:61 | rolling an out-of-range day of month over month and year ends always yields a valid calendar date |
| `Calendar.NormalizeDayNumber` | safe-harbor-app/src/App.jsx:61 | the rolled date lies exactly d − 1 days after the first of the given month, for any d, positive or not |
| `Calendar.OnOrBeforeIsLexicographic` | safe-harbor-app/src/App.jsx:34-35 | comparing two dates' day numbers (`date <= deadline`) is the same as comparing year, then month, then day |
| `Calendar.DayNumberInjective` | safe-harbor-app/src/App.jsx:34-35 | two valid dates with the same day number are the same date |
| `Calendar.DayNumberOfCivil` | safe-harbor-app/src/App.jsx:59-63 | civil-from-days then days-from-civil gives back any day number |
| `Calendar.CivilOfDayNumber` | safe-harbor-app/src/App.jsx:59-63 | days-from-civil then civil-from-days gives back any valid date |
| `Calendar.AddDaysUnique` | safe-harbor-app/src/App.jsx:61 | the only valid date n days after d is CivilFromDays(DayNumber(d) + n) |
| `Deadlines.MutableDate.constructor` | safe-harbor-app/src/App.jsx:60 | the new mutable date holds the given valid date |
| `Deadlines.MutableDate.SetDate` | safe-harbor-app/src/App.jsx:61 | after setting the day of month, the date is the old year and month with that day rolled over, and is still valid |
| `Deadlines.MutableDate.SetFullYear` | safe-harbor-app/src/App.jsx:68 | after setting the year, the date is the new year with the old month and day rolled over, and is still valid |
| `Deadlines.MutableDate.SetMonth` | safe-harbor-app/src/App.jsx:69 | after setting month (0-based) and day, the date is the old year with that month and day rolled over, and is still valid |
| `Deadlines.Calculate105DayDeadline` | safe-harbor-app/src/App.jsx:59-63 | the delivery deadline is a valid date exactly 105 days after the payment date, namely CivilFromDays(DayNumber(payment) + 105) |
| `Deadlines.SetYearKeepsYear` | safe-harbor-app/src/App.jsx:68 | moving a valid date to another year keeps that year; only February 29 in a common year moves, to March 1 |
| `Deadlines.CalculatePISDeadline` | safe-harbor-app/src/App.jsx:66-71 | the placed-in-service deadline is December 31 of the payment year + 4, for every payment month and day, February 29 included |
| `Deadlines.DeliveryExample` | safe-harbor-app/src/App.jsx:664 | the only valid date 105 days after 2025-12-15 is 2026-03-30 |
| `SafeHarbor.SafeHarborPercentage` | safe-harbor-app/src/App.jsx:24-26 | for a positive total, the result is allocated/total × 100 rounded half up to hundredths (20000·a − t < 2·t·n ≤ 20000·a + t); a zero total gives NaN for 0 and Infinity otherwise |
| `SafeHarbor.RoundingThreshold` | safe-harbor-app/src/App.jsx:24-26 | with a positive total, the percentage rounded to hundredths is at least 5.00 iff 20000 · allocated ≥ 999 · total |
| `SafeHarbor.Qualified` | safe-harbor-app/src/App.jsx:76-79 | the `parseFloat(percentage) >= 5.0` test: with a positive total, a project qualifies iff 20000 · allocated ≥ 999 · total, i.e. the unrounded share is at least 4.995%; with a zero total, it qualifies iff allocated > 0 (NaN fails, Infinity passes) |
| `SafeHarbor.ExactlyFivePercent` | safe-harbor-app/src/App.jsx:185-187 | an allocation of exactly one twentieth of the total shows 5.00% and qualifies |
| `SafeHarbor.RoundingAdmitsJustUnderFive` | safe-harbor-app/src/App.jsx:247 | 999/20000 (4.995%) qualifies, because the test compares the rounded value |
| `SafeHarbor.FullAllocation` | safe-harbor-app/src/App.jsx:24-26 | allocating the whole positive total shows exactly 100.00% |
| `SafeHarbor.QualifiedMonotone` | safe-harbor-app/src/App.jsx:185-187 | for a fixed total, raising the allocation never loses qualification, a zero total included |
| `SafeHarbor.LiquidatedDamages` | safe-harbor-app/src/App.jsx:427 | the figure is 5% of the price rounded to the cent (20·r − 10 ≤ price < 20·r + 10), exact when the price is a multiple of 20 cents |
| `SafeHarbor.LiquidatedDamagesMeetSafeHarbor` | safe-harbor-app/src/App.jsx:427 | the liquidated damages on a price that is a multiple of 20 cents are exactly 5.00% of it; on a price of at least $100 they pass the 5% test |
| `BocTrack.Join` | safe-harbor-app/src/App.jsx:50 | `track.join(" + ")`: no parts give the empty string; otherwise the result starts with the first part and ends with the last |
| `BocTrack.JoinPush` | safe-harbor-app/src/App.jsx:45-50 | pushing a part and joining again appends the separator and that part, so labels list tracks in push order |
| `BocTrack.DetermineBOCTrack` | safe-harbor-app/src/App.jsx:29-56 | the warning flag is always the negation of eligibility |
| `BocTrack.FeocDeadlineByYear` | safe-harbor-app/src/App.jsx:31-34 | a payment is on or before 2025-12-31 iff it falls in 2025 or earlier |
| `BocTrack.ItcDeadlineByFields` | safe-harbor-app/src/App.jsx:32-35 | a payment is on or before 2026-07-04 iff it is before 2026, or in 2026 before July, or in July 2026 up to the 4th |
| `BocTrack.FeocImpliesItcWindow` | safe-harbor-app/src/App.jsx:31-35 | meeting the FEOC cut-off implies meeting the small-project cut-off |
| `BocTrack.LargeProjectTrack` | safe-harbor-app/src/App.jsx:37-43 | above 1.5 MW: eligible iff paid in 2025 or earlier, warning otherwise; label "FEOC Exemption Only (5% safe harbor available)" or "Must use Physical Work Test"; details always the fixed >1.5MW sentence |
| `BocTrack.SmallProjectTrack` | safe-harbor-app/src/App.jsx:44-55 | up to 1.5 MW: label "ITC/PTC via 5% safe harbor + FEOC exemption" if paid in 2025 or earlier, "ITC/PTC via 5% safe harbor" if paid by 2026-07-04, else "Neither track available"; eligible iff paid by 2026-07-04; empty details |
| `BocTrack.SmallProjectLabels` | safe-harbor-app/src/App.jsx:45-50 | a small project gets one of exactly three labels, and "FEOC exemption" never appears alone |
| `BocTrack.FeocPaymentIsEligible` | safe-harbor-app/src/App.jsx:34-47 | whatever the capacity, a payment on or before 2025-12-31 makes the project eligible |
| `Portfolio.CountQualified` | safe-harbor-app/src/App.jsx:76-79 | the 5%-qualified count never exceeds the number of projects |
| `Portfolio.CountFeocEligible` | safe-harbor-app/src/App.jsx:82-85 | the FEOC-eligible count never exceeds the number of projects |
| `Portfolio.ReduceAllocated` | safe-harbor-app/src/App.jsx:80 | the dashboard's `reduce` (left fold) of allocated costs, from any start value, is that value plus their sum |
| `Portfolio.IsFeocEligible` | safe-harbor-app/src/App.jsx:82-85 | the dashboard's filter (eligible track and paid by 2025-12-31) holds iff the project was paid on or before 2025-12-31, whatever its capacity |
| `Portfolio.FeocCountIsDateCount` | safe-harbor-app/src/App.jsx:82-85 | the FEOC-eligible count equals the number of projects paid on or before 2025-12-31 |
| `Portfolio.Dashboard` | safe-harbor-app/src/App.jsx:74-85 | total = number of projects; qualified ≤ total; FEOC-eligible ≤ total and = number paid by 2025-12-31; invested = sum of allocated costs |
| `Portfolio.CountQualifiedAppend` | safe-harbor-app/src/App.jsx:255 | appending a project raises the qualified count by one exactly when that project qualifies |
| `Portfolio.CountPaidAppend` | safe-harbor-app/src/App.jsx:255 | appending a project raises the paid-by-FEOC-deadline count by one exactly when it was paid in time |
| `Portfolio.SumAllocatedAppend` | safe-harbor-app/src/App.jsx:255 | appending a project raises the sum of allocated costs by its allocated cost |
| `Portfolio.DashboardAfterAppend` | safe-harbor-app/src/App.jsx:249-257 | after an append, each dashboard aggregate moves by exactly the new project's share |
| `Portfolio.SequentialIdsUnique` | safe-harbor-app/src/App.jsx:253 | ids numbered 1..n in order are pairwise distinct |
| `Portfolio.ProjectList.constructor` | safe-harbor-app/src/App.jsx:6-20 | the list starts with the single seed project "Project Sunrise", id 1, and ids are sequential |
| `Portfolio.ProjectList.HandleCalculate` | safe-harbor-app/src/App.jsx:249-257 | with no project selected, exactly one record is appended, with id = old length + 1, and earlier records are unchanged; with one selected, the list is unchanged; ids stay 1..n |

## Left out

- The user interface is not modelled: JSX rendering, tabs, `useState` hooks, the alert after adding a project, the Guidance page's text, and the per-row table markup.
- `downloadContract` is not modelled. It is browser I/O (a Blob, an object URL and a link click).
- The contract text is not modelled. It is string templating, with a contract number from `Date.now()` and today's date; only its 5% liquidated-damages arithmetic is kept.
- Currency and date formatting (`toLocaleString`, `toLocaleDateString`) is not modelled. It is locale-library code; deadlines are returned as (year, month, day) values.
- Time zones are not modelled. The source parses "YYYY-MM-DD" as UTC midnight and then changes the date in local time; the model works on pure calendar dates. West of UTC the parsed date is the previous local day, so the app would show a 105-day deadline one day early (2025-12-15 gives March 29, 2026) and, for a January 1 payment, a placed-in-service deadline one year early (2025-01-01 gives 2028-12-31); `Deadlines.Calculate105DayDeadline` and `Deadlines.CalculatePISDeadline` state what the app shows at UTC or east of it.
- Floating-point arithmetic is not modelled. Division, multiplication and `toFixed` are exact rational arithmetic here, with an explicit half-up rounding to hundredths. At an exact half-hundredth tie the displayed figure can be 0.01 lower than the model's (23/160 shows "14.37" through binary doubles, while `SafeHarborPercentage` gives 1438 hundredths); the `>= 5.0` verdict is not affected by such ties near 5.
- Non-numeric inputs are not modelled. An empty capacity or cost field parses to NaN, and an empty date gives an invalid date. Capacities and costs are integers and payment dates are valid calendar dates in this model. With a NaN capacity both `capacity > 1.5` and `capacity <= 1.5` are false, so the app labels a 2025 payment "FEOC exemption" alone; `BocTrack.SmallProjectLabels` rules that label out only for numeric capacities.
- Negative costs are not modelled. Costs are natural numbers of cents, as the app treats them as amounts.
- The 6.5% "recommended amount" and the dashboard's "$x.xM" rounding of the invested total are not modelled. Both are display only.
- `Deadlines.MutableDate.SetMonth`: accepts only month indexes 0..11, not the full rolling of out-of-range months, because the code only ever passes 11.
- `Portfolio.ProjectList.HandleCalculate`: takes whether a project is selected as a boolean. Only that fact is used, not the selected record.
- Risk-group classification, ITC rate computation and compliance-status auditing are not modelled. The app's code does not contain them.
