# healthytracker stores in Dafny

This project models the five Pinia stores that hold the state of the healthytracker
web app.

- **Food calendar** (`FoodCalendar`, calendar.dfy). A date-keyed list of day entries.
  - Each entry has breakfast, lunch and dinner product lists and a running `total` of
    calories, proteins, fats and carbs.
  - `currentDay` is a reference to one entry, so writes through it change the calendar.
- **Water ledger** (`WaterLedger`, water.dfy). The same kind of date-keyed list for water.
  - Each day has a running `waterIntake` and the list of glasses drunk.
  - There is a daily goal, with a percentage getter and a remaining-amount getter.
- **Habit tracker** (`Habits`, habits.dfy; date keys in `HabitDates`, habit_dates.dfy).
  - It holds a habit catalogue, the list of tracked habits and the selected habit.
  - Each habit has a map from `YYYY-MM-DD` keys to a mark: `true`, `'relapse'` or
    anything else `markDay` was given.
  - The streak getter walks backwards day by day from today.
- **Product catalogue** (`Products`, products.dfy).
  - The batch insert skips names that are already present.
  - The search is a case-insensitive prefix filter on a keyword.
- **Translation lookup** (`I18n`, i18n.dfy). A dotted key is walked segment by segment
  through the nested translations tree.

Shared records (a date triple, a product, and an Option for JS `null`/`undefined`) are
in shared.dfy.

Representation choices:
- **Classes for in-place state.** A store whose actions update fields in place is a
  `class`. The day entries of both ledgers are classes too, because the `currentDay`
  cursor aliases an entry of the calendar.
- **Getters and the key format are functions.** The pure getters and the date-key format
  are functions. The loops (`getStreakDays`, `getCaloriesPerDays`, `getWaterPerDays`,
  `removeProduct`, `addProducts`, `t`) are methods with loop invariants.
- **Nutrients in hundredths.** Nutrient amounts are integers in hundredths (12.34 kcal is
  1234), so `Math.round(x * 100) / 100` is exact and leaves values unchanged. The
  "below 0.001 becomes 0" guard then zeroes exactly the values at or below zero.
- **Dates for the streak.** Habit dates are civil `(year, month, day)` triples. The
  backward step follows the rollover of `Date.setDate(getDate() - 1)`, and Gregorian leap
  years decide the length of February. Today's date is a parameter.
- **Translations tree.** The translations tree is a parameter of type `Tree`.

Proved beyond each operation's own contract:
- adding a product and then removing it restores non-negative day totals;
- adding a product keeps the totals equal to the sum of the meal items; removing one keeps
  them equal provided every item is non-negative (the clamp at 0 breaks the equality
  once a negative item has pulled a total down);
- adding a glass keeps `waterIntake` equal to the sum of the glasses; removing one keeps
  it equal provided no glass has a negative amount (for the same reason);
- for a positive goal and intake, the percentage reaches 100 exactly when the intake is at least 99.5% of the goal;
- toggling an unmarked day twice restores the day map;
- the date key format tells valid dates apart, so the streak walk reads a different
  `true` entry at every step; this is why it ends and never exceeds the total of clean days;
- a batch insert keeps the old list as a prefix, keeps names unique, and holds exactly
  the names of the old list and of the batch;
- the search keeps catalogue order and returns everything for an empty keyword;
- splitting a key on '.' and joining it back are inverse;
- a translation is always the key itself or a leaf string of the tree.

## Model

| member | source | states |
|---|---|---|
| FoodCalendar.Clamp | src/store/calendar.js:81-83 | a total below 0.001 becomes 0: the result is never negative and differs from the input only when the input was at most 0 |
| FoodCalendar.Minus | src/store/calendar.js:71-84 | subtracting a product's numeric fields leaves every total non-negative: exactly the difference wherever that difference is not negative, and 0 wherever it is |
| FoodCalendar.AddThenRemove | src/store/calendar.js:52-83 | on non-negative totals, adding a product and then removing it restores the totals exactly |
| FoodCalendar.SumWithout | src/store/calendar.js:77-86 | splicing item k out of a meal and adding it back to the sum gives the sum of the whole meal |
| FoodCalendar.RemoveFromMeals | src/store/calendar.js:70-86 | with every item non-negative, taking item k out of one meal and its values off the three-meal sum gives exactly the sum over what remains |
| FoodCalendar.DayEntry.constructor | src/store/calendar.js:24-39 | a new day has the given date, three empty meals and zero totals |
| Shared.FindKey | src/store/calendar.js:17 | the index of the first day with that date, or -1 exactly when no day has it; both ledgers look days up through it |
| FoodCalendar.CalendarStore.constructor | src/store/calendar.js:9-12 | an empty calendar with no current day |
| FoodCalendar.CalendarStore.SetCurrentDay | src/store/calendar.js:15-47 | an existing date leaves the calendar unchanged and points the cursor at an entry of it; a new date appends exactly one blank entry, which becomes the cursor; date uniqueness is preserved |
| FoodCalendar.CalendarStore.AddProduct | src/store/calendar.js:48-64 | the product is appended to that meal only, each total grows by the product's value, and totals that matched the meals' sums still do |
| FoodCalendar.CalendarStore.RemoveProduct | src/store/calendar.js:65-93 | a valid key removes exactly that item, keeps the order of the rest and subtracts it from the totals, clamped at 0; an out-of-range key changes nothing; other meals are untouched; balanced non-negative totals stay balanced |
| FoodCalendar.CalendarStore.GetCaloriesPerDays | src/store/calendar.js:98-116 | one value per requested date, in order: the matching day's calories, or 0 when no day matches |
| WaterLedger.PouredWithout | src/store/water.js:70-72 | removing glass i lowers the glasses' sum by its amount, and with non-negative glasses that does not go below 0 |
| WaterLedger.RoundHalfUp | src/store/water.js:115 | `Math.round(n / d)`: the nearest integer, halves rounded up |
| WaterLedger.Percentage | src/store/water.js:113-116 | 0 without a goal or an intake, never above 100, the rounded percentage whenever that is below 100, and 100 once the rounded value reaches it |
| WaterLedger.PercentageOfGoal | src/store/water.js:115 | for a positive goal and intake, the percentage lies in 0..100 and is 100 exactly when the intake is at least 99.5% of the goal |
| WaterLedger.Remaining | src/store/water.js:117-120 | the whole goal without an intake; otherwise the goal minus the intake, but never below 0 |
| WaterLedger.WaterDay.constructor | src/store/water.js:30-38 | a new day has the given date, no intake and no glasses |
| WaterLedger.WaterStore.constructor | src/store/water.js:10-14 | an empty calendar, no current day and a 2000 ml goal |
| WaterLedger.WaterStore.SetCurrentDay | src/store/water.js:17-46 | an existing date leaves the calendar unchanged and points the cursor at that day; a new date appends exactly one empty day, which becomes the cursor |
| WaterLedger.WaterStore.AddWater | src/store/water.js:47-67 | without a current day nothing changes; otherwise the intake grows by the amount, one glass is appended, and an intake equal to the glasses' sum stays so |
| WaterLedger.WaterStore.RemoveWater | src/store/water.js:68-81 | a valid index removes that glass and lowers the intake by its amount, clamped at 0; an invalid index changes nothing; a balanced day whose glasses are all non-negative stays balanced |
| WaterLedger.WaterStore.SetDailyGoal | src/store/water.js:82-86 | the goal is replaced and nothing else changes |
| WaterLedger.WaterStore.GetWaterPerDays | src/store/water.js:92-110 | one value per requested date, in order: the matching day's intake, or 0 |
| WaterLedger.WaterStore.WaterPercentage | src/store/water.js:113-116 | never above 100, 0 without a goal or an intake, the rounded share of the goal whenever that rounds below 100, and 100 once it rounds to 100 or more |
| WaterLedger.WaterStore.RemainingWater | src/store/water.js:117-120 | the goal without an intake; otherwise the larger of 0 and the goal minus the intake |
| HabitDates.DaysInMonth | src/store/habits.js:71 | every month has 28 to 31 days |
| HabitDates.Prev | src/store/habits.js:71 | the day before is a valid, strictly earlier date; day 0 rolls back to the last day of the previous month, and January to December 31 of the previous year |
| HabitDates.Back | src/store/habits.js:67-75 | n steps back from a valid date is a valid date |
| HabitDates.BackBefore | src/store/habits.js:67-75 | going further back always lands strictly earlier |
| HabitDates.NatString | src/store/habits.js:168-169 | `String(n)`: at least one digit, a single digit exactly below 10, ending in the last decimal digit |
| HabitDates.IntString | src/store/habits.js:167 | `String(n)` starts with '-' exactly for negative numbers |
| HabitDates.Pad2 | src/store/habits.js:168-169 | `padStart(2, '0')` gives the two decimal digits of any number below 100 |
| HabitDates.FormatParts | src/store/habits.js:166-171 | a key is the year's digits followed by a six-character `-MM-DD` tail |
| HabitDates.NatStringInjective | src/store/habits.js:168-169 | different naturals print differently |
| HabitDates.IntStringInjective | src/store/habits.js:167 | different integers print differently |
| HabitDates.FormatPairInjective | src/store/habits.js:166-171 | two valid dates with the same key are the same date |
| Habits.RemoveAt | src/store/habits.js:96-98 | `splice(i, 1)`: a valid index drops exactly that element and shifts the rest down; any other index leaves the list as it is |
| Habits.IndexOf | src/store/habits.js:95 | `indexOf`: the first position of the element, or -1 exactly when it is absent |
| Habits.FindHabit | src/store/habits.js:145 | `findIndex` on the id: the first habit with it, or -1 exactly when none has it |
| Habits.MaxId | src/store/habits.js:129 | `Math.max(...ids, 0)`: at least 0, at least every id, and either 0 or some habit's id |
| Habits.Toggled | src/store/habits.js:105-113 | a day marked `true` or `'relapse'` becomes absent, any other becomes `true`, and every other day is unchanged |
| Habits.ToggleTwiceRestores | src/store/habits.js:106-113 | toggling an unmarked day twice gives back the original map |
| Habits.ToggleTwiceRelapse | src/store/habits.js:106-113 | toggling a relapse day twice leaves it marked `true` |
| Habits.RunKeys | src/store/habits.js:67-82 | n consecutive clean days walking back from today are n distinct clean dates, so n is at most the total of clean days |
| Habits.FormatDistinguishes | src/store/habits.js:166-171 | the key format tells any two valid dates apart |
| Habits.WalkBack | src/store/habits.js:64-77 | the walk counts the days from today backwards that are marked `true`, stops at the first that is not, and never counts more than the clean days there are |
| Habits.DefaultHabits | src/store/habits.js:5-27 | the three initial habits have distinct ids, the largest being 3 |
| Habits.HabitStore.constructor | src/store/habits.js:4-34 | the initial catalogue, nothing tracked, nothing selected, no day maps |
| Habits.HabitStore.GetHabitById | src/store/habits.js:36-38 | a catalogue habit with that id, or none exactly when no habit has it |
| Habits.HabitStore.GetActiveHabit | src/store/habits.js:39-41 | the first tracked habit, or none exactly when nothing is tracked |
| Habits.HabitStore.IsDayRelapse | src/store/habits.js:49-52 | a relapse day is a day present in the habit's map |
| Habits.HabitStore.IsDayTracked | src/store/habits.js:45-48 | a tracked day is present, is not a relapse, and is one of the clean dates |
| Habits.HabitStore.GetTotalDays | src/store/habits.js:79-82 | the number of dates marked `true`, at most the number of marked dates, and 0 exactly when no date is marked `true` |
| Habits.HabitStore.GetStreakDays | src/store/habits.js:53-78 | today and the streak-1 days before it are marked `true`, the next day back is not, and the streak is at most the total of clean days |
| Habits.HabitStore.AddActiveHabit | src/store/habits.js:85-93 | the habit is tracked exactly once and has a day map; an existing map is kept |
| Habits.HabitStore.RemoveActiveHabit | src/store/habits.js:94-99 | the first occurrence is spliced out, which with no duplicates removes the habit entirely; other habits stay tracked |
| Habits.HabitStore.ToggleDay | src/store/habits.js:100-114 | the habit's day map becomes its toggled map; no other habit's map changes |
| Habits.HabitStore.MarkDay | src/store/habits.js:115-120 | the day gets the given mark, `true` by default, in a map created if missing |
| Habits.HabitStore.MarkRelapse | src/store/habits.js:121-126 | afterwards the day is a relapse day and not a tracked day |
| Habits.HabitStore.AddCustomHabit | src/store/habits.js:127-139 | exactly one habit is appended; its id, which is returned, is the largest existing id (0 for an empty catalogue) plus one, so above every existing id and at least 1; a missing description becomes '' |
| Habits.HabitStore.SetSelectedHabit | src/store/habits.js:140-142 | the selection is replaced and nothing else changes |
| Habits.RemoveHabit | src/store/habits.js:145-148 | splicing out the habit `findIndex` finds keeps ids unique, leaves no habit with the deleted id, and keeps every habit with another id |
| Habits.HabitStore.DeleteHabit | src/store/habits.js:143-161 | the habit is spliced out of the catalogue and no habit keeps its id; its first occurrence is spliced out of the tracked list, the others keeping their order, so it is no longer tracked; its day map is gone; a deleted selection falls back to the first tracked habit or none; any other selection stays |
| Products.FindByName | src/store/products.js:24 | `find` by name: a product with that name from the list, present exactly when some product has the name |
| Products.MergedPrefix | src/store/products.js:21-30 | a batch insert never removes or reorders products: the old list is a prefix of the new one |
| Products.MergedUnique | src/store/products.js:23-28 | unique names stay unique, even when the batch repeats a name |
| Products.MergedNames | src/store/products.js:23-28 | a name is in the new list exactly when it was in the old list or in the batch |
| Products.MergedFromBatch | src/store/products.js:23-28 | everything appended comes from the batch |
| Products.MergedAppendsFresh | src/store/products.js:24-27 | a product whose name is new to the list and to the rest of the batch is appended at the end |
| Products.LowerChar | src/store/products.js:16 | no Latin or Russian capital remains, every capital is changed, and every other character is left alone |
| Products.LowerCharIdempotent | src/store/products.js:16 | lowercasing a character twice is lowercasing it once |
| Products.Lower | src/store/products.js:16 | `toLowerCase` keeps the length, leaves no Latin or Russian capital, and keeps every other character in place |
| Products.LowerIdempotent | src/store/products.js:16 | lowercasing a string twice is lowercasing it once |
| Products.Filter | src/store/products.js:15-17 | the result holds exactly the products whose lowercased name starts with the lowercased keyword, and is no longer than the list |
| Products.FilterAppend | src/store/products.js:15-17 | filtering keeps catalogue order: it distributes over concatenation |
| Products.FilterEmptyKeyword | src/store/products.js:14-18 | the empty keyword returns the whole list |
| Products.FilterIgnoresCase | src/store/products.js:16 | a keyword and its lowercase form select the same products |
| Products.ProductStore.constructor | src/store/products.js:7-10 | an empty catalogue and an empty keyword |
| Products.ProductStore.FilteredProducts | src/store/products.js:14-18 | exactly the matching products, and all of them when the keyword is empty |
| Products.ProductStore.AddProducts | src/store/products.js:21-30 | the catalogue becomes the batch merge of the old catalogue: each product joins unless its name is already there, earlier products of the batch included |
| Products.ProductStore.AddProduct | src/store/products.js:32-35 | the product is appended, duplicate name or not |
| Products.ProductStore.UpdateKeyword | src/store/products.js:36-38 | a missing keyword stores '' and any other is stored as given |
| I18n.FirstDot | src/store/i18n.js:14 | the position of the first '.' |
| I18n.Split | src/store/i18n.js:14 | `split('.')`: at least one segment, none containing '.', joined back with '.' they give the key, and there is one segment exactly when the key has no dot |
| I18n.SplitJoin | src/store/i18n.js:14 | splitting dot-free segments joined with '.' gives those segments back |
| I18n.ResolveAppend | src/store/i18n.js:15-22 | walking a path in two legs is the same as walking it at once |
| I18n.ResolveLeaf | src/store/i18n.js:15-23 | a string the walk reaches is a leaf of the tree |
| I18n.ResolveOther | src/store/i18n.js:17-21 | from a value that is not an object, only the empty path leads anywhere |
| I18n.Translation | src/store/i18n.js:12-24 | the result is the key itself or a leaf string of the tree |
| I18n.TranslateTopLevel | src/store/i18n.js:12-24 | a dot-free key gives the string stored under it at the root, or else the key |
| I18n.TranslateNested | src/store/i18n.js:12-24 | `section.key` gives the string under key in that section, or else the whole key |
| I18n.Translate | src/store/i18n.js:13-24 | the loop computes the walk's translation, which is the key itself or a leaf string of the tree |

## Left out

- Persistence: every `localStorage` read and write (`saveToLocalStorage`, the state initialisers, `removeItem` in `deleteHabit`) is left out. Saves are no-ops and every store starts from its default state.
- A reloaded `currentDay` is a detached copy of the saved entry in the source, so after a reload writes through it no longer reach the calendar. The model starts with no current day, so this case is left out.
- The stores start with `currentDay` as `{}`; the model uses no day at all (null). `addWater` and the water getters treat both alike.
- FoodCalendar.CalendarStore.AddProduct and FoodCalendar.CalendarStore.RemoveProduct require a current day. On `{}` the source throws a TypeError when it indexes the missing meal list.
- WaterLedger.WaterStore.RemoveWater requires a current day. On `{}` the source throws a TypeError when it reads the missing glasses list.
- The clock: today's date for the streak and the `toLocaleTimeString` time of a glass are parameters.
- Floating point: `parseFloat`, IEEE rounding drift and `Math.round(x * 100) / 100` are not modelled. Amounts are exact hundredths, so the rounding step is the identity.
- WaterLedger.Percentage: rounds the exact ratio `100 * intake / goal`, while the source rounds the floating-point value of `(intake / goal) * 100`. The two differ where that value falls just below a half: 290 ml of a 2000 ml goal gives 14.499999999999998, which the source rounds to 14 and the model to 15.
- FoodCalendar.CalendarStore.AddProduct and FoodCalendar.CalendarStore.RemoveProduct: the per-field `for..in` loops (src/store/calendar.js:52-60 and 71-84) become one field-wise update of the four nutrient fields. A product carrying extra numeric fields would add them to the totals in the source, but a product here has exactly name, calories, proteins, fats and carbs.
- The `Date` type's range limit (about 273,790 years either side of 1970) and time zones are not modelled. The streak walks calendar dates, which is what `setHours(0, 0, 0, 0)` and `setDate` do in local time.
- The sorted copy of the clean dates that `getStreakDays` builds (src/store/habits.js:58-59) is never read, so it is not modelled.
- Products.LowerChar: only Latin A–Z and Russian А–Я and Ё are case-folded; the rest of Unicode's lowercase mapping is not modelled.
- I18n.Translate: properties inherited from `Object.prototype` (such as `constructor`) are treated as missing. None of them is a string, so the result is the same. JSON arrays are represented as objects keyed by index.
- The `locale` state and the `translations` getter return the bundled Russian file. Its content is a parameter here.
- The stores' loose (`==`) and strict (`===`) date comparisons coincide on the integer dates modelled here.
- src/store/calculation.js (floating-point nutrition formulas) and src/router/index.js (a route table) are not part of this model.
