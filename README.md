# Watts cycling coach — training-load engine and helpers

The cycling coach dashboard shows an athlete's performance-management chart. The chart tracks three figures built from the daily training stress score (TSS):

- fitness, the chronic training load (CTL);
- fatigue, the acute training load (ATL);
- form, the training stress balance (TSB = CTL − ATL).

The dashboard also shows:

- a projection of those figures over planned days, and a form classification;
- the time spent in each power zone;
- weekly load totals;
- a workout builder that expands interval templates into bars and posts a workout to the training calendar;
- a month calendar of planned and completed sessions;
- an adherence table;
- wellness cards (resting heart rate, HRV, weight);
- two small API handlers, one that posts workouts and one that reads wellness records.

This project models that logic in Dafny and proves what it promises.

Modelling conventions:

- JavaScript numbers are `real`.
- `null` and `undefined` fields are `Option` values (`Js.Num`, `Js.Text`).
- The `a || b || 0` fallbacks are named functions, in which 0, the empty string and an absent value all count as missing: `OrZero`, `FirstTruthy`, `TextOr`, `NumOr`.
- `Math.round` is `Js.Round`, which rounds half up. `Math.round(x * 10) / 10` is `Js.Round1`.
- Calendar dates inside the load engine are day numbers. Day 0 is 1970-01-01, and `Weekday` plays the part of `getDay`.
- Dates compared as `yyyy-MM-dd` text use JavaScript's string order (`Strings.LexLe`).
- The smoothing factors `1 − e^(−1/42)` and `1 − e^(−1/7)` are the parameters `kc` and `ka`, with `0 < k < 1` (`Ewma.Factor`).

Where the source folds or accumulates step by step, the model is a method with a loop. This covers:

- the running `ctl`/`atl` of `calculatePMC` and `projectPMC`;
- the `dist` and `weeks` dictionaries;
- the dashboard's `weekMap`;
- `IntervalViz`'s `expanded` array;
- the calendar's `eventsByDate`/`actByDate`.

Each such method is proved equal to a specification function. The properties are then proved about that function.

Four of the five interval templates' bar diagrams do not add up to the durations the templates declare; only Calpe Endurance (one 180-minute block) matches. Sweet Spot 2x20 draws 70 minutes against a declared 75. VO2max 5x4 draws 61 against 70, Threshold 4x8 draws 69 against 75, and Crit Openers draws 54 against 60. `WorkoutBuilder.SweetSpotDiagramShorter` proves the first of these. The model keeps the declared figures, because they are what gets posted.

## Model

| member | source | states |
|---|---|---|
| Js.OrZero | lib/pmc.js:24 | `x \|\| 0`: the value when truthy, else 0 |
| Js.FirstTruthy | lib/pmc.js:119-120 | `a \|\| b \|\| 0`: the first truthy value; 0 exactly when neither is truthy |
| Js.Round | lib/pmc.js:31 | `Math.round` lands within half a unit of its argument |
| Js.Round1 | lib/pmc.js:32-34 | rounding to one decimal lands within 0.05 of its argument |
| Js.SumOfRoundsNear | pages/api/dashboard.js:50 | a sum of rounded values is within n/2 of the exact sum |
| Strings.BeforeT | components/CalendarView.js:17 | `split('T')[0]` is the longest prefix without a 'T'; a 'T' follows it when it is shorter than the text |
| Grouping.SortBy | lib/pmc.js:14 | sorting yields an ascending permutation of the input |
| Grouping.AscendingPermutationUnique | lib/pmc.js:14 | two ascending permutations of the same records agree when no two different records share a key |
| Grouping.SortedKeys | lib/pmc.js:123-124 | the week keys sorted ascending, each once |
| Ewma.StepBetween | lib/pmc.js:25-26 | one update `c + k·(t − c)` lands between the old average and the day's stress |
| Ewma.RunWithin | lib/pmc.js:20-26 | starting in [0, m] with every stress in [0, m], the average stays in [0, m] |
| Ewma.RunsContract | lib/pmc.js:25-26 | two runs over the same stresses differ by their starting gap times (1 − k)ⁿ |
| Ewma.RunAppend | lib/pmc.js:53-56 | running over `a + b` is running over `b` from the result of `a` |
| Ewma.SustainedLoadConverges | lib/pmc.js:25-26 | under a constant stress the gap to it after n days is the decayed starting gap, and the average stays between its start and the stress |
| Ewma.SustainedLoadStepsToward | lib/pmc.js:25-26 | under a constant stress each further day moves the average toward the stress and never past it |
| Ewma.SustainedLoadClosedForm | lib/pmc.js:25-26 | the gap after n days of constant stress is (1 − k)ⁿ times the starting gap |
| Pmc.Stresses | lib/pmc.js:24 | each day's stress is `tss \|\| 0` |
| Pmc.Fold | lib/pmc.js:20-35 | the loop emits exactly the points of the recurrence from the start averages |
| Pmc.CalculatePmc | lib/pmc.js:10-37 | `[]` for null or empty input; one unprojected point per day; dates ascending; the points of the recurrence from 0 over the days sorted by date |
| Pmc.ProjectPmc | lib/pmc.js:43-68 | `[]` for an empty history; otherwise one projected point per future day with that day's date, the recurrence starting from the last point's rounded averages |
| Pmc.SeriesAt | lib/pmc.js:23-35 | point i carries day i's date and rounded stress, the rounded averages after days 0..i, and form rounded from the unrounded difference |
| Pmc.HistoryWithin | lib/pmc.js:20-34 | with every stress in [0, m], each point's fitness and fatigue lie in [0, m] and form in [−m, m], up to rounding |
| Pmc.FormSettles | lib/pmc.js:25-27 | under a sustained stress, form is the difference of the two decaying gaps, and it stays 0 once both averages equal the stress |
| Pmc.ProjectionDrift | lib/pmc.js:46-48 | starting the projection from the rounded averages moves the projected averages by at most 0.05 |
| Pmc.OrderDoesNotMatter | lib/pmc.js:14 | any ordering of the same days (distinct records on distinct dates) gives the same chart |
| Pmc.FormRoundedFromExactDifference | lib/pmc.js:27-34 | form rounded from the exact difference can differ from the difference of the rounded figures |
| Pmc.GetFormStatus | lib/pmc.js:73-80 | the six bands as if-and-only-ifs on tsb; risk is null exactly for Fresh and Optimal; Very Fresh carries "Undertraining risk" |
| Pmc.FormStatusMonotone | lib/pmc.js:73-80 | more form never gives a more severe label |
| Zones.ZoneKeys | lib/pmc.js:87 | the dictionary keys are exactly the configured zone keys |
| Zones.Seconds | lib/pmc.js:89-94 | each zone's seconds are the per-zone sum over the activities |
| Zones.Distribution | lib/pmc.js:97-103 | one row per zone, in zone order, with its info, its seconds, `round(seconds/60)` minutes and its percent of the total |
| Zones.ZeroTotals | lib/pmc.js:86-87 | the dictionary starts with every zone key at 0 |
| Zones.AddZoneTimes | lib/pmc.js:90-93 | one activity adds its `zone_times[z] \|\| 0` to each known zone and adds no key |
| Zones.TotalOf | lib/pmc.js:96 | the loop total is the sum of the zones' seconds |
| Zones.CalculateZoneDistribution | lib/pmc.js:85-104 | the method returns exactly the distribution |
| Zones.WithoutZoneTimes | lib/pmc.js:90 | an activity without `zone_times` changes nothing |
| Zones.UnknownZonesIgnored | lib/pmc.js:92 | zone times under unknown keys change nothing |
| Zones.ZoneSecondsNonNegative | lib/pmc.js:89-94 | with non-negative zone times, every zone's seconds are non-negative |
| Zones.DistributionBounds | lib/pmc.js:99-101 | with non-negative zone times, seconds and minutes are non-negative and every percent lies in [0, 100] |
| Zones.ZeroTotalZeroPercent | lib/pmc.js:101 | percent is 0 for every zone when the total is 0 |
| Zones.SharesOfTotal | lib/pmc.js:101 | the unrounded shares add up to 100 |
| Zones.PercentsNear100 | lib/pmc.js:101 | the rounded percents add up to 100 within half a point per zone |
| Activities.Load | lib/pmc.js:119 | the load is `icu_training_load` when truthy, else `tss \|\| 0`, so a zero first field falls through |
| WeeklyLoad.MondayOf | lib/pmc.js:114-116 | the week key is a Monday, at most six days before the activity's date |
| WeeklyLoad.MondayOfUnique | lib/pmc.js:114-116 | it is the only Monday in those seven days |
| WeeklyLoad.SundayGoesBackSixDays | lib/pmc.js:116 | a Sunday belongs to the week that began six days earlier |
| WeeklyLoad.ActivityDay | lib/pmc.js:112 | the date is `start_date_local` unless it is falsy, else `date`; a null landed on gives the epoch, an absent, empty or unparseable value gives no date |
| WeeklyLoad.NullDateInEpochWeek | lib/pmc.js:112-117 | an activity falling back to a null `date` is counted in the week of Monday 1969-12-29 |
| WeeklyLoad.TotalsRides | lib/pmc.js:121 | a week's rides count its activities |
| WeeklyLoad.WeekKeys | lib/pmc.js:123-124 | the output weeks are strictly ascending and are exactly the keys of the activities |
| WeeklyLoad.AddToWeek | lib/pmc.js:118-121 | one step creates the week when missing and adds the activity's load, hours and one ride |
| WeeklyLoad.AddActivity | lib/pmc.js:111-121 | each step keeps the invariant that every week's totals are those of its activities so far |
| WeeklyLoad.Accumulate | lib/pmc.js:110-122 | the loop succeeds iff every activity's date gives a valid Date; then each week holds exactly the totals of its group |
| WeeklyLoad.EmitRows | lib/pmc.js:123-129 | the rows are the weeks' totals with tss rounded once and hours to one decimal |
| WeeklyLoad.WeeklyTss | lib/pmc.js:109-130 | the result is the weekly rows when every activity's date gives a valid Date, and the throw otherwise |
| WeeklyLoad.WeeklyAscending | lib/pmc.js:123-124 | the rows are sorted ascending by week |
| WeeklyLoad.ActivityInItsWeek | lib/pmc.js:112-121 | every activity is counted in the row of its own Monday |
| WeeklyLoad.RidesAddUp | lib/pmc.js:121 | rides summed over all weeks equal the number of activities |
| Dashboard.IdOrDate | pages/api/dashboard.js:26 | a row's date is `id` when truthy, else `date` |
| Dashboard.PmcRows | pages/api/dashboard.js:22-31 | `[]` for a non-array payload; one row per record with integer-rounded ctl and atl, and tsb rounded from the raw difference |
| Dashboard.TsbNearRoundedDifference | pages/api/dashboard.js:27-29 | tsb is within 1 of the difference of the rounded ctl and atl |
| Dashboard.TsbDiffersFromRoundedDifference | pages/api/dashboard.js:27-29 | a record where tsb is not the difference of the rounded figures |
| Dashboard.LastUpTo | pages/api/dashboard.js:68 | the index of the last row dated on or before today, or −1 |
| Dashboard.Latest | pages/api/dashboard.js:68 | none iff no row is dated up to today; otherwise the last such row |
| Dashboard.LatestResponse | pages/api/dashboard.js:74-78 | the `latest` fields are those of that row, or all undefined |
| Dashboard.SameMonday | pages/api/dashboard.js:45-47 | the `(getDay() + 6) % 7` rule picks the same Monday as lib/pmc.js |
| Dashboard.AddHours | pages/api/dashboard.js:52 | the re-rounded hours are within 0.05 of the exact sum |
| Dashboard.AddToWeek | pages/api/dashboard.js:49-52 | one step creates the week when missing and adds the rounded load, one ride and the re-rounded hours |
| Dashboard.AddActivity | pages/api/dashboard.js:44-52 | each step keeps the invariant that every week's totals are those of its activities so far |
| Dashboard.GroupIntoWeeks | pages/api/dashboard.js:41-53 | the loop succeeds iff no start date is unparseable; then the weeks hold the totals of the kept activities |
| Dashboard.EmitWeeks | pages/api/dashboard.js:54 | the emitted rows are each week's totals |
| Dashboard.DashboardWeeks | pages/api/dashboard.js:41-54 | the result is the sorted weekly rows, or the throw |
| Dashboard.UndatedSkipped | pages/api/dashboard.js:43 | an activity whose `start_date_local` is falsy (absent, empty or null) is skipped, not an error |
| Dashboard.DashRides | pages/api/dashboard.js:51 | a week's rides count its activities |
| Dashboard.DashTssNearExact | pages/api/dashboard.js:50 | summing rounded loads stays within n/2 of the exact load |
| Dashboard.DashHoursNearExact | pages/api/dashboard.js:52 | re-rounding after each activity stays within 0.05·n of the exact hours |
| Dashboard.TssRoundingDiffers | pages/api/dashboard.js:50 | two activities of load 0.5 total 2 here but 1 in lib/pmc.js |
| Dashboard.AgreesWithWeeklyTss | pages/api/dashboard.js:41-54 | with local dates everywhere, both groupings give the same weeks and rides, and tss within (rides + 1)/2 |
| ZoneDonut.HasData | components/ZoneDonut.js:7 | true iff some row has a positive minute count |
| ZoneDonut.Static | components/ZoneDonut.js:10-15 | one slice per configured zone with 0 minutes and 0 percent |
| ZoneDonut.DisplayCases | components/ZoneDonut.js:10-15 | with data the slices are the distribution rows; without, one zero slice per zone |
| ZoneDonut.ShortZonesAreNoData | components/ZoneDonut.js:7 | zones under 30 seconds each round to 0 minutes, so there is no data |
| ZoneDonut.SlicePerZone | components/ZoneDonut.js:6-15 | either way one slice per zone, in zone order, with the distribution's minutes |
| WorkoutBuilder.MaxWatts | components/WorkoutBuilder.js:242 | at least 300 and at least every bar's watts, and equal to 300 or one of them |
| WorkoutBuilder.PushRepeats | components/WorkoutBuilder.js:233-239 | the inner loop appends the interval's expansion |
| WorkoutBuilder.ExpandIntervals | components/WorkoutBuilder.js:231-240 | the loop builds exactly the expansion of the intervals |
| WorkoutBuilder.IntervalViz | components/WorkoutBuilder.js:229-243 | the expansion, its maximum watts and its total duration |
| WorkoutBuilder.RepsWithoutRecovery | components/WorkoutBuilder.js:234-235 | without recovery, i repeats are i copies of the interval |
| WorkoutBuilder.RepsWithRecovery | components/WorkoutBuilder.js:234-238 | with recovery, work and recovery bars alternate, with no recovery after the last repeat |
| WorkoutBuilder.ExpandOneShape | components/WorkoutBuilder.js:232-238 | `repeats \|\| 1` work bars, plus count − 1 recoveries when there is a recovery |
| WorkoutBuilder.RecoveriesInZ1 | components/WorkoutBuilder.js:237 | every recovery bar is in zone z1 |
| WorkoutBuilder.ExpandLength | components/WorkoutBuilder.js:231-240 | the expansion's length is Σ (count + (recovery ? count − 1 : 0)) |
| WorkoutBuilder.ExpandInOrder | components/WorkoutBuilder.js:232 | intervals are expanded in order |
| WorkoutBuilder.TotalDurationAppend | components/WorkoutBuilder.js:243 | the total duration adds over concatenation |
| WorkoutBuilder.ScaleIsProduct | components/WorkoutBuilder.js:243 | repeated addition is the product |
| WorkoutBuilder.RepsDuration | components/WorkoutBuilder.js:233-239 | i repeats last i work durations plus one recovery per gap |
| WorkoutBuilder.ExpandOneDuration | components/WorkoutBuilder.js:232-243 | an interval lasts count·duration + (count − 1)·recovery duration |
| WorkoutBuilder.TotalDurationOfExpand | components/WorkoutBuilder.js:231-243 | the total duration is the sum of the intervals' durations |
| WorkoutBuilder.SweetSpotDiagramShorter | components/WorkoutBuilder.js:5-15 | the Sweet Spot diagram lasts 70 minutes while the template declares 75 |
| WorkoutBuilder.HandlePost | components/WorkoutBuilder.js:73-90 | the template's fields plus the date, or the custom fields with minutes turned into seconds; nothing posted iff no template is selected or the custom name is empty |
| WorkoutBuilder.DisabledMirrorsGuard | components/WorkoutBuilder.js:218 | the button is disabled exactly when pressing it would post nothing |
| CalendarView.FirstText | components/CalendarView.js:17 | `a \|\| b \|\| ''` on text fields |
| CalendarView.Tag | components/CalendarView.js:20 | every record is copied with its kind |
| CalendarView.IndexByDate | components/CalendarView.js:15-31 | the loop builds exactly the index of the records by their date key |
| CalendarView.IndexIsGroups | components/CalendarView.js:15-31 | a date is a key iff it is non-empty and some record has it; its list is that date's records, tagged, in input order |
| CalendarView.IndexKeys | components/CalendarView.js:18 | the keys are exactly the non-empty date keys of the records |
| CalendarView.RecordInOwnList | components/CalendarView.js:17-20 | every record with a date lands in its own date's list |
| CalendarView.RecordInNoOtherList | components/CalendarView.js:15-31 | no record lands in another date's list |
| CalendarView.ActivitiesIgnoreStartDate | components/CalendarView.js:17-26 | events fall back on `start_date`; activities do not |
| CalendarView.Chips | components/CalendarView.js:105 | the first two entries, or all when fewer |
| CalendarView.CellShowsFirstTwo | components/CalendarView.js:105-114 | a day cell shows its first (at most two) records, in order |
| CalendarView.LexLeCommonPrefix | components/CalendarView.js:36 | a shared prefix does not decide the string order |
| CalendarView.CampBounds | components/CalendarView.js:34-37 | both end dates are camp days |
| CalendarView.DayKindsDisjoint | components/CalendarView.js:34-44 | no day is two of camp, travel and race day |
| AdherenceTable.CompletedCount | components/AdherenceTable.js:15 | at most the total; 0 iff none completed; the total iff all completed |
| AdherenceTable.CompletionPctBounds | components/AdherenceTable.js:17 | the rate lies in [0, 100]; 0 with nothing completed; 100 with all |
| AdherenceTable.CompletionPctMonotone | components/AdherenceTable.js:17 | more completed sessions never lower the rate |
| AdherenceTable.Scores | components/AdherenceTable.js:20 | the non-null adherence values; empty iff all are null |
| AdherenceTable.ShareSumIsSumOver | components/AdherenceTable.js:21 | adding each value divided by n is the sum divided by n |
| AdherenceTable.AvgIsMean | components/AdherenceTable.js:19-21 | the average is the arithmetic mean of the non-null values, and 0 when there are none |
| AdherenceTable.AvgBetween | components/AdherenceTable.js:19-21 | the average lies between any lower and upper bound of the values |
| AdherenceTable.Summarise | components/AdherenceTable.js:2-17 | no summary iff the list is empty; otherwise completed ≤ total and the rate in [0, 100] |
| AdherenceTable.BandMonotone | components/AdherenceTable.js:31-37 | a higher value never gets a worse colour; green from the upper threshold, red below the lower |
| AdherenceTable.RowColour | components/AdherenceTable.js:60 | grey iff null, otherwise the 85/65 adherence bands |
| AdherenceTable.FillWidth | components/AdherenceTable.js:84 | `min(adh, 100)` |
| AdherenceTable.StatusBadge | components/AdherenceTable.js:92-96 | 'Done' iff completed |
| WellnessApi.OrNull | pages/api/wellness.js:25-27 | null iff the reading is falsy, else the reading |
| WellnessApi.Rows | pages/api/wellness.js:23-28 | no more rows than records, each with at least one reading |
| WellnessApi.Wellness | pages/api/wellness.js:15-33 | `[]` after a thrown error, a non-ok response or a non-array payload |
| WellnessApi.RowsOfOne | pages/api/wellness.js:23-28 | one record is kept, mapped, exactly when it has a reading |
| WellnessApi.RowsAppend | pages/api/wellness.js:23-28 | mapping and filtering distributes over concatenation, so kept rows stay in input order |
| WellnessApi.DroppedIffNoReading | pages/api/wellness.js:28 | a record is dropped iff all three readings are falsy |
| WellnessApi.RecordWithReadingKept | pages/api/wellness.js:23-28 | every record with a reading is in the output |
| WellnessSection.Latest | components/WellnessSection.js:59 | the last entry, or `{}` for an empty list |
| WellnessSection.Prev | components/WellnessSection.js:60 | the entry at length − 8, or `{}` with fewer than eight |
| WellnessSection.RoundedTrend | components/WellnessSection.js:62-67 | a trend iff both values are truthy, within half a unit of their difference |
| WellnessSection.ToFixed1 | components/WellnessSection.js:69 | within 0.05 of its argument, keeping its sign |
| WellnessSection.WeightTrend | components/WellnessSection.js:68-70 | a trend iff both weights are truthy, within 0.05 of their difference |
| WellnessSection.ShortHistoryHasNoTrend | components/WellnessSection.js:60-70 | fewer than eight entries give no trends |
| WellnessSection.TrendsCompareSevenBack | components/WellnessSection.js:59-70 | otherwise the trends compare the latest entry with the one seven before |
| WellnessSection.LowerIsBetter | components/WellnessSection.js:87-107 | up iff falling, down iff rising, neutral iff null or zero |
| WellnessSection.HigherIsBetter | components/WellnessSection.js:97 | up iff rising, down iff falling, neutral iff null or zero |
| WellnessSection.DirectionsMirror | components/WellnessSection.js:87-97 | the same change gets opposite arrows on the two kinds of card |
| WellnessSection.Label | components/WellnessSection.js:86-106 | a dash iff null; otherwise the value, with '+' iff positive |
| WellnessSection.FallingHeartRateIsGood | components/WellnessSection.js:62-87 | a resting heart rate a beat or more lower shows a good arrow; an unchanged one shows none |
| WorkoutApi.TextOr | pages/api/workout.js:16-17 | the text when truthy, else the default |
| WorkoutApi.NumOr | pages/api/workout.js:18-19 | the number when truthy, else the default |
| WorkoutApi.Sent | pages/api/workout.js:4-22 | the platform is called iff the method is POST with a truthy date and name |
| WorkoutApi.Handle | pages/api/workout.js:3-28 | 405 for other methods; 400 "date and name required"; 200 with the event; 500 with the error message |
| WorkoutApi.PostedOnlyWhenValid | pages/api/workout.js:9-23 | a created event is answered only when the platform was called with a valid body |
| WorkoutApi.StartsAtSeven | pages/api/workout.js:14 | the start is the date followed by "T07:00:00" |
| WorkoutApi.Defaults | pages/api/workout.js:16-19 | the defaults are no description, a ride, an hour (also for duration 0) and no load |
| IndexPage.JsRem | pages/index.js:296 | JavaScript `%`: the remainder has the dividend's sign and equals the Euclidean one for non-negative dividends |
| IndexPage.DurationSplit | pages/index.js:293-298 | for positive seconds: hours shown iff s ≥ 3600, 0 ≤ m < 60, and h·3600 + m·60 ≤ s < h·3600 + m·60 + 60 |
| IndexPage.NegativeDurationIsMinutes | pages/index.js:295-297 | a negative duration shows minutes only, between −60 and 0 |
| IndexPage.Ceil | pages/index.js:281 | `Math.ceil` is the least integer not below its argument |
| IndexPage.DaysUntil | pages/index.js:279-282 | never negative; 0 iff the target is not in the future; otherwise the number of whole or started days left |
| IndexPage.DaysUntilMonotone | pages/index.js:279-282 | the countdown never goes up as time passes |
| IndexPage.TodayOf | pages/index.js:54 | today's figures, or zeros when missing |
| IndexPage.TsbShown | pages/index.js:131-133 | a '+' iff form is positive; the positive style iff form is non-negative |
| IndexPage.NoTodayDefaults | pages/index.js:54-133 | missing data shows zero form, unsigned, in the positive style, labelled "Optimal" |

## Left out

- **I/O.** Network fetches, `postWorkout`, `res.status(...).json(...)`, `Promise.allSettled` and the environment credentials are not modelled. Fetched payloads and the outcome of the post are parameters. lib/intervals.js and pages/api/debug.js are not part of this model.
- **The clock.** `new Date()` and `Date.now()` become parameters: the `today` string of `Dashboard.Latest` and the `now` of `IndexPage.DaysUntil`.
- **Floating point.** Arithmetic is on exact reals. `Math.exp` is replaced by the factor parameters. `Math.round(x * 10) / 10` is exact rounding to one decimal, not bit-exact doubles. The `Math.sqrt` intensity figure of the builder is not modelled.
- **Date semantics.** JavaScript date parsing, local time zones and the UTC shift of `toISOString` near midnight are not modelled. Dates are day numbers. A date value is absent (undefined or empty), null, unparseable, or a day number.
- **Week order in pages/api/dashboard.js.** The keys are ISO date strings sorted with `localeCompare`. The model sorts them as day numbers, which gives the same order for `yyyy-MM-dd` keys.
- **`Object.values` order.** Integer-like keys come first in JavaScript. Week and zone keys are never integer-like, so insertion order is modelled.
- Pmc.CalculatePmc: the comparator `new Date(a.date) − new Date(b.date)` is NaN for an invalid date. The model covers only valid dates as day numbers, so the behaviour of `sort` with such a comparator is not captured.
- Pmc.CalculatePmc: records sharing a date are in some sorted order. `Pmc.OrderDoesNotMatter` is stated only when no two different records share a date.
- WeeklyLoad.WeeklyTss: when the value `||` lands on is undefined, empty or unparseable, the Date is invalid and `toISOString` throws. This is modelled as `None`; the exception's message is not. A null there gives the epoch and is bucketed.
- Dashboard.DashboardWeeks: an unparseable `start_date_local` makes the whole handler fail. This is modelled as `None`; the 500 response built from it is not.
- AdherenceTable.Scores: the filter is `!== null`, so an `undefined` `adherencePct` would pass it and make the average NaN. The model gives `adherencePct` only two states, a number or null.
- WorkoutBuilder.HandlePost: the model requires a selected template index within the list. The page only ever sets indices of listed templates.
- WorkoutApi.Handle: `req.body` is assumed to be an object. Destructuring a missing body throws, which would be a 500 response.
- IndexPage.DurationSplit: durations are whole seconds (`int`). Fractional seconds are not modelled.
- **Text rendering.** Numbers turned into text (`'Hh Mm'`, `'+3 bpm'`, `'+5'`) are datatypes (`DurationText`, `TrendLabel`, `TsbText`) rather than strings.
- **Presentation.** The charts (PMCChart, WeeklyTSSChart, TimelineBar, TimelineBanner), the sidebar, metric cards, styles, colours as CSS values, React state, recharts and date-fns are not modelled. The zone table and the 42/7-day constants of lib/athlete.js are input data.
- The dashboard response's `athlete` profile defaults and the `tss` column of the `pmc` rows are kept in the record but have no property stated about them.
- The calendar's grid of days (`eachDayOfInterval`, `startOfWeek`) and `isToday` depend on date-fns and the clock. Only the `yyyy-MM-dd` predicates are modelled.
