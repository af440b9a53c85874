# Daily Diet: Home screen meal statistics

A Dafny model of the statistics that the Home screen of the Daily Diet
app computes from the stored meals (`handleStats` in
`src/screens/Home/index.tsx`), and of the two display decisions taken on
the result: the colour flag `isHighPercent` and the text of the highlight
title.

`handleStats` receives the stored day groups, each holding the meals
logged that day. It flattens them into one list, days in the given order and
meals in their order within each day. It then walks the list once and
keeps five counters: `allMealsCount`, `healthyMeals`, `notHealthyMeals`, the
current streak `sequence` and the best streak `betterSequence`. The record
it builds holds these counts and `percentage = healthyMeals / allMealsCount * 100`.

The walk is modelled exactly as written. The statements
`healthyMeals++ && sequence++` and `notHealthyMeals++ && (sequence = 0)`
short-circuit on the value of the count BEFORE the increment. So the first
healthy meal never advances the streak, and the first unhealthy meal never
resets it. A list of N >= 1 healthy meals therefore reports a best streak of
N - 1, and a list can also report more than its longest healthy run. The
intended streak (advance on every healthy meal, reset on every unhealthy
one) is defined separately in module `Streak`. The written streaks are
proved equal to the intended streaks of the list without its first
healthy meal and its first unhealthy meal (see "## Findings").

Files:

- `meals.dfy`, module `Meals`: meal and day records, the flattening
  `Flatten`, the reference counts `TotalMeals` and `CountHealthy`.
- `display.dfy`, module `Display`: the `Stats` record, the JavaScript
  percentage (`NaN`, `Infinity` or an exact fraction), `IsHighPercent`
  and `HighlightTitle`.
- `aggregation.dfy`, module `Aggregation`: the loop step `Step`, its fold
  `Run`, the method `HandleStats` and its two loop phases `CollectMeals`
  and `CountMeals`, and the
  lemmas about the counters.
- `streak.dfy`, module `Streak`: the intended streak and its relation to
  the written one.
- `scenarios.dfy`, module `Scenarios`: two worked inputs.

## Model

| member | source | states |
|---|---|---|
| Aggregation.HandleStats | src/screens/Home/index.tsx:35-65 | The returned record is the fold of the loop step over the flattened days. Its meal count is the sum of the day lengths, its healthy count is the number of meals flagged healthy, healthy plus unhealthy equals the total, the best streak is at most max(0, healthy count - 1), and the record is well formed. |
| Aggregation.CollectMeals | src/screens/Home/index.tsx:44-46 | The nested `forEach`/`push` loops build exactly the flattened list of the days, as long as the sum of the day lengths. Both loops are proved by invariants. |
| Aggregation.CountMeals | src/screens/Home/index.tsx:48-56 | The counting loop ends with the counters of the step fold over the meals: the meal count is the list length, the healthy count is the number of meals flagged healthy, and the best streak is at most max(0, healthy count - 1). The loop is proved by its invariant. |
| Meals.Flatten | src/screens/Home/index.tsx:44-46 | The list the nested loops push into. A meal occurs in it exactly when it occurs in some day's list. Order and length are pinned by FlattenCons, FlattenIndex and FlattenLength. |
| Meals.FlattenLength | src/screens/Home/index.tsx:44-46 | The flattened list is exactly as long as the sum of the day lengths. |
| Meals.FlattenAppend | src/screens/Home/index.tsx:44-46 | Flattening two lists of days one after the other gives the two flattened lists one after the other, so day order is kept. |
| Meals.FlattenCons | src/screens/Home/index.tsx:44-46 | The first day's meals come first, in their own order, followed by the flattened rest. |
| Meals.FlattenIndex | src/screens/Home/index.tsx:44-46 | Meal j of day i sits in the flattened list at position (meals of the days before i) + j. |
| Meals.FlattenOfEmptyDays | src/screens/Home/index.tsx:44-46 | Days whose meal lists are all empty flatten to the empty list. |
| Meals.CountHealthyPositions | src/screens/Home/index.tsx:51-52 | The healthy count equals the number of positions holding a healthy meal. |
| Meals.CountHealthyBound | src/screens/Home/index.tsx:51-53 | At most every meal is healthy, and all are exactly when the healthy count equals the length. |
| Aggregation.Step | src/screens/Home/index.tsx:49-55 | One iteration: the meal count grows by one, a healthy meal adds one to the healthy count and leaves the unhealthy count unchanged, an unhealthy meal the reverse, the streak grows by at most one, and the best streak never falls and is at least the streak. The conditional update is pinned by ShortCircuitStep. |
| Aggregation.Run | src/screens/Home/index.tsx:48-56 | The loop over the whole list: the meal count is the list length, healthy plus unhealthy is the length, and the streak is at most the best streak. The exact counts are in RunCounts and the bounds in RunStreakBounds. |
| Aggregation.Summarize | src/screens/Home/index.tsx:58-64 | The record built from the counters is well formed whenever the counts add up and the best streak is within the total. With no meals the percentage is NaN or Infinity. |
| Aggregation.RunCounts | src/screens/Home/index.tsx:48-53 | After the loop, `allMealsCount` is the number of meals, `healthyMeals` the number flagged healthy, and `healthyMeals + notHealthyMeals == allMealsCount`. |
| Aggregation.RunStreakBounds | src/screens/Home/index.tsx:51-55 | After every iteration `sequence <= betterSequence <= max(0, healthyMeals - 1)`, and hence `betterSequence <= allMealsCount`. |
| Aggregation.BestStreakGrows | src/screens/Home/index.tsx:55 | Visiting more meals never lowers `betterSequence`. |
| Aggregation.ShortCircuitStep | src/screens/Home/index.tsx:51-55 | On a healthy meal the streak grows by one only if a healthy meal came before it. On an unhealthy meal the streak becomes 0 only if an unhealthy meal came before it. Otherwise it is unchanged. The best streak then becomes the larger of the two. |
| Aggregation.AllHealthyStreak | src/screens/Home/index.tsx:51-55 | For N >= 1 meals that are all healthy, `sequence` and `betterSequence` both end at N - 1. |
| Aggregation.NoMealsStats | src/screens/Home/index.tsx:38-42 | With no days, or only days with empty lists, every count and the best streak are 0 and the percentage is NaN (0/0). |
| Aggregation.SummarizeWellFormed | src/screens/Home/index.tsx:58-64 | The record built from any list of meals is well formed, with the meal count and healthy count of the list. |
| Aggregation.DisplayOfMeals | src/screens/Home/index.tsx:103-117 | For the record of a list of meals, the title is "-" exactly when the list is empty, and the high-percentage flag holds exactly when at least half of the meals are healthy. |
| Display.Percentage | src/screens/Home/index.tsx:59 | JavaScript division times 100: NaN exactly for 0/0, Infinity exactly for a positive count over 0, otherwise a finite fraction equal to healthy/total. |
| Display.IsHighPercent | src/screens/Home/index.tsx:103 | On a well-formed record, `percentage >= 50 || isNaN(percentage)` holds exactly when there are no meals or `2 * healthyMeals >= allMealsCount`. |
| Display.HighlightTitle | src/screens/Home/index.tsx:111-117 | On a well-formed record the title is "-" exactly when there are no meals, "0%" exactly when there are meals but none healthy, and the numeric percentage exactly when some meal is healthy. |
| Display.Truthy | src/screens/Home/index.tsx:111 | JavaScript truthiness of the percentage: NaN is falsy, and a finite percentage is truthy exactly when its real value is not 0. |
| Display.AtLeastFifty | src/screens/Home/index.tsx:103 | The integer test used for a finite percentage holds exactly when the real value healthy/total * 100 is at least 50. |
| Streak.IntendedStep | src/screens/Home/index.tsx:49-55 | One iteration of the intended loop: the meal count grows by one, the streak is positive exactly after a healthy meal, and the best streak never falls and is at least the streak. |
| Streak.IntendedRun | src/screens/Home/index.tsx:48-56 | The intended loop over the whole list: the meal count is the list length and `sequence <= betterSequence <= length`. Its meaning is pinned by IntendedRunIsLongestStreak. |
| Streak.IntendedStreakIsHealthySuffix | src/screens/Home/index.tsx:51-53 | With an unconditional advance and reset, the current streak is the run of healthy meals that ends the list: those meals are healthy and the meal before them, if any, is not. |
| Streak.IntendedRunIsLongestStreak | src/screens/Home/index.tsx:51-55 | With an unconditional advance and reset, the best streak equals the length of the longest run of consecutive healthy meals. No run is longer, and some run reaches it. |
| Streak.SameCounts | src/screens/Home/index.tsx:48-53 | The intended loop and the written loop count meals, healthy meals and unhealthy meals identically. |
| Streak.IntendedSummary | src/screens/Home/index.tsx:58-64 | The intended record differs from the written one only in `betterSequence`, and it is well formed. |
| Streak.StepsAgreeOnceBothSeen | src/screens/Home/index.tsx:51-53 | Once a healthy meal and an unhealthy meal have both been counted, the written step and the intended step agree. |
| Streak.WrittenLosesAtMostOne | src/screens/Home/index.tsx:51-55 | The written best streak is never more than one below the intended one. |
| Streak.DropFirsts | src/screens/Home/index.tsx:52-53 | The list without the two meals on which the written loop skips its streak update: it is shorter by one if there is a healthy meal, and by one more if there is an unhealthy meal. |
| Streak.WrittenIsIntendedWithoutFirsts | src/screens/Home/index.tsx:51-55 | Exact relation: the written `sequence` and `betterSequence` equal the intended ones computed on the list without its first healthy meal and its first unhealthy meal. |
| Streak.WrittenOvershoots | src/screens/Home/index.tsx:53 | For three healthy, one unhealthy and three healthy meals, the written best streak is 5. The intended one, the longest healthy run, is 3. |
| Streak.FirstHealthyMealStartsNoStreak | src/screens/Home/index.tsx:52 | A single healthy meal gives a written best streak of 0, against an intended 1. |
| Streak.AllHealthyOffByOne | src/screens/Home/index.tsx:52 | N >= 1 healthy meals give a written best streak of N - 1, against an intended N. |
| Streak.FirstUnhealthyMealKeepsStreak | src/screens/Home/index.tsx:53 | For healthy, healthy, unhealthy, healthy, healthy, the written best streak is 3. No run of healthy meals there is longer than 2. |
| Scenarios.OneMixedDay | src/screens/Home/index.tsx:35-65 | One day of healthy, healthy, unhealthy, healthy gives 4 meals, 3 healthy, 1 not, 3/4 (75%) and a best streak of 2. |
| Scenarios.HealthyAfterUnhealthyDay | src/screens/Home/index.tsx:35-65 | Days [unhealthy, unhealthy] then [healthy] give 3 meals, 1 healthy, 2 not, 1/3 and a best streak of 0. |

## Left out

- React state and hooks (`useState`, `setStats`, `setMealsList`, `useFocusEffect`, `useCallback`): `HandleStats` returns the record instead of storing it.
- `fetchMeals` and `getMeals`, with the `AppError` and generic error alerts and the loading flag: this is asynchronous storage I/O and user notification. The storage module is not part of this model.
- Navigation to the statistics, new-meal and meal screens: these are calls into the navigation framework.
- Floating point: the percentage is kept as the exact fraction healthy/total (plus NaN and Infinity), not as an IEEE double. `Math.round`, `toFixed(2)` and the regular-expression trimming of the title text are not modelled. `Display.Label.Percent` carries the number, not its text.
- Date formatting of section headers, the SectionList rendering and all styling. The statistics never read a day group's date, so `Meals.Day` holds only its meals.
- Every meal field other than `isHealthy`: `handleStats` reads nothing else, so `Meals.Meal` holds only that flag.
- Truthiness of a missing `isHealthy` field: the flag is a `bool` here, so a missing flag cannot be expressed.

## Findings

| source | as written | input that shows it | evidently intended | confidence | as-written member | corrected member |
|---|---|---|---|---|---|---|
| src/screens/Home/index.tsx:52 | `healthyMeals++ && sequence++` advances the streak only when `healthyMeals` was already non-zero, so the first healthy meal never counts | one healthy meal gives `betterSequence` 0, and N healthy meals give N - 1 | every healthy meal extends the streak, so the best streak is the longest run of consecutive healthy meals | high; not executed | Streak.AllHealthyOffByOne | Streak.IntendedRunIsLongestStreak |
| src/screens/Home/index.tsx:53 | `notHealthyMeals++ && (sequence = 0)` resets the streak only when `notHealthyMeals` was already non-zero, so the first unhealthy meal never breaks it | healthy, healthy, unhealthy, healthy, healthy gives `betterSequence` 3, while the longest healthy run is 2; three healthy, one unhealthy, three healthy gives 5 against 3 | every unhealthy meal resets the streak | high; not executed | Streak.FirstUnhealthyMealKeepsStreak | Streak.IntendedRunIsLongestStreak |

The screen's own behaviour is the written one: `Aggregation.HandleStats`
returns the written counters. The intended loop is `Streak.IntendedRun`.
`Streak.IntendedSummary` proves that switching to it would change only
`betterSequence`. So the title and colour decisions, which read only the
counts, are the same under both loops.
