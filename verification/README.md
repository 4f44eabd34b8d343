# Health-data aggregate, modelled in Dafny

The application is a single-user health tracker. It keeps one persisted
document, the health-data aggregate, which holds:

- goals;
- an append-only log of dated metric readings (weight, water intake, steps,
  sleep, …);
- pain points;
- a recipe catalogue with like, dislike and eaten flags;
- a list of daily tips with a completion streak;
- settings;
- an eaten-meals log.

This project models four parts of the application:

- the functions that compute views of that document;
- the store operations that read it, change it and write it back;
- the update rules of the React provider that holds the application's copy;
- the gates and the undo of the progress-analytics page.

Modules, one per source unit:

- `HealthTypes` (`health_types.dfy`): the entities, JavaScript's `filter` and `findIndex` as `Filter`/`FindIndex`, and the metric id `name-<clock>`.
- `DerivedViews` (`derived_views.dfy`): days to a goal, goal progress, the latest reading of a metric, the 48-hour weight cooldown and the liked recipes.
- `MetricHistory` (`metric_history.dfy`): the windowed history, with one reading per UTC day.
- `LocalStorage` (`local_storage.dfy`): the class `HealthStore` holding the document. Each mutating method is proved against a function on the document value, and the promised properties are proved about those functions.
- `HealthContext` (`health_context.dfy`): the class `HealthProvider`, with its copy `healthData` (absent before the first load) and `loading`.
- `ProgressAnalytics` (`progress_analytics.dfy`): the class `ProgressAnalyticsPage` with its component state.

Times are integer milliseconds. The UTC day of a time, the date part of its
ISO 8601 text, is the time divided by 86 400 000 and rounded down. The local
calendar day used by the daily tip reset is a parameter `localDay`. The
current time is an argument `now`. Metric values and goal numbers are reals.

Four behaviours of the source are kept as they are and proved:

- Progress on a goal whose current value is above its target is always 50 %.
- The streak rises on every tip update that leaves all tips completed, including repeats on the same day.
- The page builds the id it offers to undo from its own clock read (`tId`), while the store stamps the reading with another (`tAdd`).
- The page's undo writes back the provider's copy of the document, not the store's.

The page records readings through the store directly and never reloads the
provider, so the provider's copy that its undo writes back never holds the
reading being undone. The undo therefore removes the reading whatever `tId`
and `tAdd` are, restores the weight cooldown, and also discards every other
reading recorded since the provider's last load (`UndoRightAfterWeightSubmit`,
`UndoAfterTwoSubmits`). `UndoAfterRecording` is about a copy that already
holds the reading, which the page never passes; it shows that even then the
removal would depend on the two clock reads agreeing.

## Model

| member | source | states |
|---|---|---|
| HealthTypes.FindIndex | src/utils/localStorage.ts:435 | the first index whose element satisfies the predicate, or -1 exactly when none does |
| HealthTypes.Filter | src/utils/localStorage.ts:367 | keeps exactly the elements satisfying the predicate, never grows, keeps distinctness, and is the identity when all satisfy it |
| HealthTypes.FilterConcat | src/utils/localStorage.ts:367 | filtering distributes over concatenation, so kept elements stay in their relative order |
| HealthTypes.MetricId | src/utils/localStorage.ts:508 | the id is the metric name, '-', and then exactly `IntToString` of the clock value |
| HealthTypes.NatToString | src/utils/localStorage.ts:508 | the decimal text of a natural: at least one digit, all digits, a single digit exactly below 10 |
| HealthTypes.NatToStringValue | src/utils/localStorage.ts:508 | the digits spell the number, read left to right, with no leading zero |
| HealthTypes.IntToString | src/utils/localStorage.ts:495 | the decimal text of a clock value: a leading '-' exactly when negative, followed by the magnitude's text |
| HealthTypes.IntToStringValue | src/utils/localStorage.ts:495 | the digits after the optional '-' spell the magnitude of the clock value |
| HealthTypes.MetricIdInjective | src/utils/localStorage.ts:508 | two ids for the same name are equal if and only if their clock values are equal |
| HealthTypes.IntToStringInjective | src/utils/localStorage.ts:495 | distinct clock values print as distinct decimal texts |
| HealthTypes.CeilDiv | src/utils/localStorage.ts:363 | the least q with a <= q·b, i.e. `Math.ceil(a / b)` |
| HealthTypes.Round | src/utils/localStorage.ts:410 | `Math.round`: the integer within one half below and strictly less than one half above x |
| DerivedViews.DaysToGoal | src/utils/localStorage.ts:359-364 | the deadline lies in the day-length interval ending `days` days after now; non-positive iff the deadline is not after now |
| DerivedViews.GoalProgress | src/utils/localStorage.ts:402-416 | 100 when current equals target, exactly 50 whenever current exceeds target, otherwise current/target·100 rounded to nearest |
| DerivedViews.ProgressBoundedForIncreaseGoal | src/utils/localStorage.ts:413-415 | an unmet increase goal with non-negative current lies in 0..100 |
| DerivedViews.ProgressNotClamped | src/utils/localStorage.ts:413-415 | the result is not clamped: current -1 against target 2 gives -50 |
| DerivedViews.WeightCooldown | src/utils/localStorage.ts:525-543 | allowed with no prior weight or 48 h elapsed; otherwise refused with the remaining time rounded up to whole hours, 1..48 when the last update is not in the future |
| DerivedViews.SameName | src/utils/localStorage.ts:367 | exactly the readings of the named series |
| DerivedViews.LatestIndex | src/utils/localStorage.ts:370-374 | the `reduce` ends on a reading with the greatest date, the first such in list order |
| DerivedViews.LatestMetric | src/utils/localStorage.ts:366-375 | none iff no reading has the name; otherwise a reading of that name dated no earlier than any other, the first such in list order |
| DerivedViews.LatestAfterAppend | src/utils/localStorage.ts:370-374 | appending a reading strictly newer than its series makes it the latest |
| DerivedViews.LikedRecipes | src/utils/localStorage.ts:450-453 | exactly the recipes whose liked flag is set, without introducing duplicates |
| MetricHistory.UtcDay | src/utils/localStorage.ts:385-386 | the UTC day holding t: its first instant is at or before t, the next day's after |
| MetricHistory.Cutoff | src/utils/localStorage.ts:379-381 | the window starts at the same time of day as now, `days` UTC days earlier, and not after now for a non-negative `days` |
| MetricHistory.Absorb | src/utils/localStorage.ts:384-395 | one `reduce` step: a reading before the cutoff leaves the record; the record grows by at most one, only by the reading; an in-window reading on a day with no entry is appended |
| MetricHistory.GroupByDay | src/utils/localStorage.ts:384-395 | the record holds one reading per UTC day of the in-window readings, each the latest of its day, first listed among equal times |
| MetricHistory.InsertByDate | src/utils/localStorage.ts:397-399 | insertion keeps the same multiset of readings |
| MetricHistory.SortByDate | src/utils/localStorage.ts:397-399 | a permutation of its input, sorted by date, keeping distinct days distinct |
| MetricHistory.DistinctDaysCount | src/utils/localStorage.ts:397 | readings on distinct days are as many as their days |
| MetricHistory.GetMetricHistory | src/utils/localStorage.ts:377-400 | every result has the name and a date at or after the cutoff, is the latest of its UTC day, at most one per day, strictly ascending, and there is one per day with an in-window reading |
| LocalStorage.ResetTips | src/utils/localStorage.ts:418-431 | on a new local day every flag is cleared and the stamp becomes now; on the same day nothing changes; streak, order and tip contents other than the flag are kept |
| LocalStorage.ResetIdempotent | src/utils/localStorage.ts:418-431 | a second reset on the same local day is a no-op |
| LocalStorage.SetTipCompletion | src/utils/localStorage.ts:433-448 | only the first tip with the id changes its flag; the streak rises by exactly one iff the id exists and all tips are then completed; an unknown id changes nothing |
| LocalStorage.StreakRisesOnEveryRepeat | src/utils/localStorage.ts:441-444 | completing an already completed tip twice with all tips completed raises the streak by two |
| LocalStorage.CompletingEveryTipOnceRaisesStreakOnce | src/utils/localStorage.ts:441-444 | completing each of a cleared day's tips once, in any order, raises the streak exactly once and leaves all completed |
| LocalStorage.CompletedSoFar | src/utils/localStorage.ts:435-444 | after completing the first k ids of such an order, exactly the tips with those ids are completed, and the streak has risen only if they cover every tip |
| LocalStorage.CompleteOneMore | src/utils/localStorage.ts:435-444 | completing one tip not yet completed adds exactly it to the completed ones, the streak rising iff it was the last |
| LocalStorage.RecipeLike | src/utils/localStorage.ts:455-464 | only the first recipe with the id changes, getting both flags; an unknown id changes nothing |
| LocalStorage.MarkEaten | src/utils/localStorage.ts:466-485 | only the first recipe with the id changes, to eaten at now, and exactly one meal entry with that id, now and its meal type is appended; an unknown id changes nothing; other fields unchanged |
| LocalStorage.WithPainPoint | src/utils/localStorage.ts:492-503 | exactly one pain point appended, named by the text of the first clock read and dated by the second; the earlier pain points and every other field unchanged |
| LocalStorage.NewMetric | src/utils/localStorage.ts:505-513 | the new reading has the given fields, the id `name-<clock>` and the clock value as date |
| LocalStorage.WithMetric | src/utils/localStorage.ts:505-523 | exactly the new reading appended; only the metrics and the last weight update can change, the latter to now exactly for a weight reading |
| LocalStorage.CooldownRightAfterWeight | src/utils/localStorage.ts:517-519 | right after a weight reading the cooldown refuses for 48 hours |
| LocalStorage.CooldownOverAfter48Hours | src/utils/localStorage.ts:537-539 | 48 hours after a weight reading the cooldown allows a new one |
| LocalStorage.LatestAfterAddMetric | src/utils/localStorage.ts:505-523 | a reading added later than its whole series becomes that series' latest |
| LocalStorage.HealthStore.Load | src/utils/localStorage.ts:333-344 | returns the stored document |
| LocalStorage.HealthStore.Save | src/utils/localStorage.ts:346-356 | replaces the stored document |
| LocalStorage.HealthStore.ResetDailyTips | src/utils/localStorage.ts:418-431 | the flag-clearing loop leaves the document with its tips as `ResetTips` gives them, nothing else changed |
| LocalStorage.HealthStore.UpdateDailyTipCompletion | src/utils/localStorage.ts:433-448 | the document with its tips as `SetTipCompletion` gives them |
| LocalStorage.HealthStore.GetLikedRecipes | src/utils/localStorage.ts:450-453 | `LikedRecipes` of the stored catalogue: exactly the stored recipes whose liked flag is set, in catalogue order |
| LocalStorage.HealthStore.GetEatenMeals | src/utils/localStorage.ts:487-490 | the stored eaten-meals log |
| LocalStorage.HealthStore.UpdateRecipeLike | src/utils/localStorage.ts:455-464 | the document with its catalogue as `RecipeLike` gives it |
| LocalStorage.HealthStore.MarkRecipeAsEaten | src/utils/localStorage.ts:466-485 | the document as `MarkEaten` gives it |
| LocalStorage.HealthStore.AddPainPoint | src/utils/localStorage.ts:492-503 | the document as `WithPainPoint` gives it, with separate clock reads for the id and the date |
| LocalStorage.HealthStore.AddMetric | src/utils/localStorage.ts:505-523 | one reading appended; the weight cooldown restarts only for a weight reading, other settings unchanged |
| LocalStorage.HealthStore.CanUpdateWeight | src/utils/localStorage.ts:525-543 | the cooldown of the stored last weight update |
| HealthContext.UpsertGoal | src/contexts/HealthContext.tsx:149-156 | an existing id: the first such goal replaced in place, length kept, all others unchanged; a new id: appended at the end |
| HealthContext.UpsertKeepsIdsUnique | src/contexts/HealthContext.tsx:149-156 | unique goal ids stay unique |
| HealthContext.UpsertIdempotent | src/contexts/HealthContext.tsx:149-156 | upserting the same goal twice equals upserting it once |
| HealthContext.TrackedMetrics | src/contexts/HealthContext.tsx:116-124 | tracking puts the id in the list, appending only if absent; untracking removes every occurrence and nothing else; no duplicates are introduced |
| HealthContext.UntrackKeepsOrder | src/contexts/HealthContext.tsx:121-124 | the remaining ids keep their relative order |
| HealthContext.ToggledDarkMode | src/contexts/HealthContext.tsx:179-182 | the flag flips and the other settings are unchanged |
| HealthContext.AfterLoad | src/contexts/HealthContext.tsx:44-53 | a reload changes only the tips record: stamped on today's local day, all flags cleared on a new day, the document unchanged on the same day |
| HealthContext.HealthProvider.constructor | src/contexts/HealthContext.tsx:41-42 | no copy yet, loading |
| HealthContext.HealthProvider.LoadData | src/contexts/HealthContext.tsx:44-62 | the daily reset runs before the read, so the copy equals the reset store and is stamped today |
| HealthContext.HealthProvider.RefreshData | src/contexts/HealthContext.tsx:68-70 | as a load |
| HealthContext.HealthProvider.AddPainPoint | src/contexts/HealthContext.tsx:72-89 | no-op without a copy; otherwise the store gets the pain point and the copy is reloaded, not loading |
| HealthContext.HealthProvider.AddMetric | src/contexts/HealthContext.tsx:91-108 | no-op without a copy; otherwise the store gets the reading and the copy is reloaded, not loading |
| HealthContext.HealthProvider.UpdateMetricTracking | src/contexts/HealthContext.tsx:110-143 | no-op without a copy; otherwise the copy with only its selected metrics changed is saved and kept |
| HealthContext.HealthProvider.UpdateGoal | src/contexts/HealthContext.tsx:145-173 | no-op without a copy; otherwise the copy with only its goals upserted is saved and kept |
| HealthContext.HealthProvider.ToggleDarkMode | src/contexts/HealthContext.tsx:175-198 | no-op without a copy; otherwise the copy with only the dark-mode flag flipped is saved and kept |
| HealthContext.HealthProvider.UpdateRecipeLike | src/contexts/HealthContext.tsx:200-213 | no-op without a copy; otherwise the store's like update, then a reload, not loading |
| HealthContext.HealthProvider.MarkRecipeAsEaten | src/contexts/HealthContext.tsx:215-232 | no-op without a copy; otherwise the store's eaten update, then a reload, not loading |
| HealthContext.HealthProvider.CompleteTip | src/contexts/HealthContext.tsx:234-247 | no-op without a copy; otherwise the tip update with true, then a reload, not loading |
| HealthContext.HealthProvider.ResetTip | src/contexts/HealthContext.tsx:249-262 | no-op without a copy; otherwise the tip update with false, then a reload, not loading |
| HealthContext.HealthProvider.CanUpdateWeight | src/contexts/HealthContext.tsx:264-266 | the store's cooldown, with no guard |
| ProgressAnalytics.DistinctNames | src/pages/ProgressAnalytics.tsx:197 | each name once, exactly the input's names; a list without duplicates is returned as is |
| ProgressAnalytics.DistinctNamesExtends | src/pages/ProgressAnalytics.tsx:197 | later names never reorder or drop the ones already seen (first-occurrence order) |
| ProgressAnalytics.AvailableMetrics | src/pages/ProgressAnalytics.tsx:196-198 | no duplicates, never "Weight", and a name is listed iff it is not "Weight" and some reading has it |
| ProgressAnalytics.ChartMetric | src/pages/ProgressAnalytics.tsx:515-516 | the slot's selection when available and non-empty, else the first available name, else "No data" |
| ProgressAnalytics.UnitForMetric | src/pages/ProgressAnalytics.tsx:249-256 | L, steps and hours for the three default metrics; no unit exactly for every other name |
| ProgressAnalytics.SelectMetric | src/pages/ProgressAnalytics.tsx:231-235 | the slot at the index gets the name; every other slot and the length are unchanged |
| ProgressAnalytics.Undone | src/pages/ProgressAnalytics.tsx:91-98 | removes exactly the readings with the id, leaves every other field, and is the identity when no reading has the id |
| ProgressAnalytics.UndoKeepsOrder | src/pages/ProgressAnalytics.tsx:91-93 | the remaining readings keep their relative order |
| ProgressAnalytics.UndoAfterRecording | src/pages/ProgressAnalytics.tsx:170-171 | against a copy holding the just-recorded reading (which the page never passes), the undo would remove it iff the page's clock read equals the store's, keep the rest of the log and not roll back the cooldown |
| ProgressAnalytics.WeightAccepted | src/pages/ProgressAnalytics.tsx:120-135 | a weight is refused when not a number, not positive, or while the cooldown refuses; accepted otherwise |
| ProgressAnalytics.MetricAccepted | src/pages/ProgressAnalytics.tsx:160-168 | a reading is refused when not a number; a number is accepted iff it is not negative, so zero is accepted |
| ProgressAnalytics.ProgressAnalyticsPage.constructor | src/pages/ProgressAnalytics.tsx:18-36 | three default slots, empty inputs, cooldown allowing, nothing to undo |
| ProgressAnalytics.ProgressAnalyticsPage.CheckWeightUpdateEligibility | src/pages/ProgressAnalytics.tsx:48-51 | the page's status becomes the store's cooldown; nothing else changes |
| ProgressAnalytics.ProgressAnalyticsPage.HandleUndoMetric | src/pages/ProgressAnalytics.tsx:87-118 | no-op with nothing recorded; otherwise the store gets the given copy without that id, the record is dropped, the page redraws and that metric's input is cleared |
| ProgressAnalytics.ProgressAnalyticsPage.HandleWeightSubmit | src/pages/ProgressAnalytics.tsx:120-158 | a non-number, a value <= 0, or a refusing cooldown changes nothing; otherwise the weight is recorded in kg and remembered under the id from the page's own clock read |
| ProgressAnalytics.ProgressAnalyticsPage.HandleMetricSubmit | src/pages/ProgressAnalytics.tsx:160-194 | a non-number or a negative value changes nothing (zero is accepted); otherwise the reading is recorded and remembered, and that metric's input cleared |
| ProgressAnalytics.ProgressAnalyticsPage.HandleSelectMetric | src/pages/ProgressAnalytics.tsx:231-235 | the selections become `SelectMetric` of the old ones; nothing else changes |
| ProgressAnalytics.UndoRightAfterWeightSubmit | src/pages/ProgressAnalytics.tsx:87-158 | a weight submitted and then undone against the provider's copy leaves the store exactly as before, cooldown included, whatever the two clock reads |
| ProgressAnalytics.UndoAfterTwoSubmits | src/pages/ProgressAnalytics.tsx:87-194 | after two submitted readings the undo leaves the store as before both: the earlier reading is lost too |

## Left out

- Browser storage, JSON and the seed document are not modelled: `initializeHealthData`, the parse in `getHealthData`, the quota alert in `saveHealthData`, and `generateWeightHistory` with its random values. The store is one field that is read and replaced whole.
- Failures are not modelled. The `try`/`catch` paths of the provider and the page, which report a storage error in a toast, never happen in the model.
- Dates are kept as millisecond values rather than ISO 8601 text. An unparseable date, which JavaScript compares as NaN, is not modelled.
- Floating-point arithmetic is not modelled. Values are reals, `Math.round` is floor(x + ½), and `parseFloat` is a parameter `parse` returning `NotANumber` or a number.
- GoalProgress: requires a non-zero target on the branch where current is below target. There JavaScript would divide by zero and return an infinite or NaN percentage.
- GetMetricHistory: the cutoff is exactly `days` times 24 hours before now. The source moves back `days` local calendar days with `setDate`, which differs by the daylight-saving shift when one lies in the window.
- The local calendar day (`toDateString`) and the time zone are not modelled; `ResetTips` takes the day as the parameter `localDay`.
- WithMetric: one clock value serves as the id, the date and the weight stamp. `addMetric` reads the clock three times.
- The Undo action inside the page's confirmation toast is not modelled. It is the handler of the render before the submission, which sees the record of the previous submission, if any. The model follows the page's Undo button, which sees the current record.
- The provider's operations take one `now` for the store call and the reload that follows it.
- HealthProvider.UpdateMetricTracking: aliasing is not modelled. The source copies the settings shallowly, so its `push` also changes the array of the copy being replaced. Since that copy is discarded, nothing observable differs.
- HandleSelectMetric: requires an index of one of the three chart slots, the only indices the page passes. In JavaScript a larger index would grow the array.
- React machinery is not modelled:
  - rendering, `refreshKey` beyond its increment, and toasts;
  - the dark-mode class on the document;
  - the one-minute cooldown refresh timer and the ten-second expiry of the undo offer;
  - charts and their image export;
  - the display helpers `getMetricData`, `formatYAxis` and `getMetricUnit`, and the time-range picker.
- The UI-only files are not part of this model: `src/App.tsx`, `src/components/*`, `src/pages/Index.tsx`, `src/pages/Dashboard.tsx`, `src/pages/HealthTips.tsx` and `src/pages/DietPlanner.tsx`. They add no rule to the aggregate beyond the operations above.
