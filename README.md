# Calorie tracker: meal log and exercise plan

A Dafny model of the two pieces of the calorie tracker website's script
(`advanced_llm_apps/calorie_tracker_website/app.js`) whose behaviour can be stated:

- **The meal log.** Meals `{name, calories, time}` are kept as one serialised array
  under the storage key `ct-meals`. `getMeals` loads it and fails soft: no storage, no
  item, text that does not parse, or text that parses to a falsy value all read as the
  empty log. `setMeals` overwrites it. The add-meal click handler trims the name,
  converts the calories with `Number`, and replaces a blank time by `--:--`. It rejects
  the entry when the trimmed name is empty or the calories are NaN or 0. Otherwise it
  loads the log, appends the meal and saves. `renderMeals` produces one row per meal,
  the calorie total and the progress-bar width: 0 for a NaN or zero goal, otherwise
  `min(total / goal * 100, 100)`.
- **The exercise plan.** The submit handler lists one line per day `1..days`, with
  "high" intensity on odd days and "moderate" on even days, then the equipment note,
  then a fixed rest line. The focus and the note come from fixed mappings of the form
  values.

Files:

- `js_values.dfy` (module `JsValues`): the JavaScript semantics the script relies on.
  It holds the result of `Number(...)` (`Num`: NaN or a finite value) and its
  truthiness, `String.prototype.trim` over ECMAScript's whitespace set, and the decimal
  text of a day number with its inverse.
- `meal_log.dfy` (module `MealLog`): the storage slot and the meal-log functions. The
  class `MealStore` holds the storage state (`available` for `typeof localStorage`,
  `slot` for the `ct-meals` item). Its methods `Load`, `Save`, `AddMeal` and `Render`
  are the script's `getMeals`, `setMeals`, the add-meal handler and `renderMeals`.
- `exercise_plan.dfy` (module `ExercisePlan`): the plan lines and the loop that builds
  the plan.

Three consequences of the code that are easy to miss:

- The add-meal handler only rejects falsy numbers (app.js:181), so negative calories
  are accepted (`MealLog.ValidEntryIff`).
- The progress computation accepts any number as the goal (app.js:170-171): a NaN goal
  gives 0 just as a zero goal does, and a negative goal gives a progress of at most 100
  that may be negative (`MealLog.Progress`).
- A valid add while the stored text is corrupt replaces the corrupt item with a
  one-meal log (`MealLog.AddEffect`). This follows from the fail-soft load
  (app.js:142-149).

## Model

| member | source | states |
|---|---|---|
| JsValues.LeadingWhitespace | advanced_llm_apps/calorie_tracker_website/app.js:177 | the count of leading characters `trim` removes: all of them are whitespace, and the next character is not |
| JsValues.TrailingWhitespace | advanced_llm_apps/calorie_tracker_website/app.js:177 | the count of trailing characters `trim` removes: all of them are whitespace, and the character before them is not |
| JsValues.Trim | advanced_llm_apps/calorie_tracker_website/app.js:177 | the trimmed name is the field with a whitespace prefix and a whitespace suffix cut off, and a non-empty one neither starts nor ends with whitespace, so only the surrounding whitespace goes |
| JsValues.TrimEmptyIff | advanced_llm_apps/calorie_tracker_website/app.js:177 | the trimmed name is empty iff every character of the field is whitespace |
| JsValues.Truthy | advanced_llm_apps/calorie_tracker_website/app.js:181 | a number read from a field is truthy iff it is neither NaN nor 0 |
| JsValues.NatToString | advanced_llm_apps/calorie_tracker_website/app.js:129 | the day number's text is non-empty, all decimal digits, and starts with '0' only for zero |
| JsValues.ParseNatToString | advanced_llm_apps/calorie_tracker_website/app.js:129 | reading the day number's text back gives the number |
| JsValues.NatToStringInjective | advanced_llm_apps/calorie_tracker_website/app.js:129 | different day numbers have different texts |
| MealLog.LoadMeals | advanced_llm_apps/calorie_tracker_website/app.js:142-149 | a load yields the stored array when storage exists and holds one; every other case (no storage, no item, unparsable or falsy text) yields the empty log |
| MealLog.SaveSlot | advanced_llm_apps/calorie_tracker_website/app.js:151-154 | a save stores exactly the given log when storage exists and leaves the slot alone otherwise |
| MealLog.SaveLoadRoundTrip | advanced_llm_apps/calorie_tracker_website/app.js:142-154 | loading after saving a log gives that log back (the empty log without storage) |
| MealLog.SaveLoadedIsStable | advanced_llm_apps/calorie_tracker_website/app.js:142-154 | saving what was just loaded does not change what a load returns |
| MealLog.ReadForm | advanced_llm_apps/calorie_tracker_website/app.js:177-179 | the name the handler checks is blank iff the name field is all whitespace, and otherwise neither starts nor ends with whitespace; the calorie number and the time field pass through |
| MealLog.TimeOrDefault | advanced_llm_apps/calorie_tracker_website/app.js:179 | a blank time is stored as `--:--`; any other time is stored unchanged |
| MealLog.ValidEntry | advanced_llm_apps/calorie_tracker_website/app.js:181 | the guard `!mealName \|\| !calories` negated: a non-empty trimmed name and truthy calories |
| MealLog.ValidEntryIff | advanced_llm_apps/calorie_tracker_website/app.js:177-181 | a form is accepted iff its name field has a non-whitespace character and its calories are a number other than 0; negative calories pass |
| MealLog.MealOf | advanced_llm_apps/calorie_tracker_website/app.js:179-184 | the appended meal is well formed (non-empty name, calories other than 0, non-empty time), with the trimmed name, the entered calories and the time or its default |
| MealLog.AddEffect | advanced_llm_apps/calorie_tracker_website/app.js:175-186 | a rejected entry (or no storage) leaves the slot unchanged; an accepted one makes a later load return the earlier log with exactly the new meal at the end |
| MealLog.Accepted | advanced_llm_apps/calorie_tracker_website/app.js:181-184 | a run of entries never yields more meals than entries |
| MealLog.AddAllLoads | advanced_llm_apps/calorie_tracker_website/app.js:175-186 | after any run of adds, a load gives the earlier log followed by the accepted entries' meals in call order; rejected entries change nothing |
| MealLog.AcceptedWellFormed | advanced_llm_apps/calorie_tracker_website/app.js:179-184 | every meal the accepted entries become is well formed |
| MealLog.AddAllKeepsWellFormed | advanced_llm_apps/calorie_tracker_website/app.js:175-186 | after any run of adds, a log that was well formed is still well formed: no stored meal has a blank name, zero calories or an empty time |
| MealLog.AcceptedAllValid | advanced_llm_apps/calorie_tracker_website/app.js:181-184 | when every entry is valid, meal i comes from entry i and none is dropped |
| MealLog.Total | advanced_llm_apps/calorie_tracker_website/app.js:167 | the `reduce` sum of the calories, first meal to last; with no negative calories it is non-negative |
| MealLog.TotalConcat | advanced_llm_apps/calorie_tracker_website/app.js:167 | the total of two logs joined is the sum of their totals |
| MealLog.TotalBounds | advanced_llm_apps/calorie_tracker_website/app.js:167 | with no negative calories the total is at least every single meal |
| MealLog.Progress | advanced_llm_apps/calorie_tracker_website/app.js:170-171 | progress never exceeds 100; it is 0 for a NaN or zero goal; for every other goal, negative ones included, it is min(total/goal*100, 100); for a positive goal it is 100 iff the total reaches the goal, below that it is total*100/goal, and it is non-negative when the total is |
| MealLog.LogLines | advanced_llm_apps/calorie_tracker_website/app.js:160-165 | one row per meal, in log order; row i shows `name (time)` and the calories of meal i |
| MealLog.Summarize | advanced_llm_apps/calorie_tracker_website/app.js:156-172 | the summary has one row per meal and a progress of at most 100; an empty log has total 0 and progress 0 |
| MealLog.SummaryExamples | advanced_llm_apps/calorie_tracker_website/app.js:167-171 | 300 + 450 kcal total 750, which is 50% of a 1500 goal; 2000 kcal clamps to 100; a goal of 0 or NaN gives 0 |
| MealLog.MealStore.Load | advanced_llm_apps/calorie_tracker_website/app.js:142-149 | `getMeals` returns the log the slot holds, and the empty log when storage is missing or the slot holds no array |
| MealLog.MealStore.Save | advanced_llm_apps/calorie_tracker_website/app.js:151-154 | `setMeals` sets the slot to the given log when storage exists; a later load returns that log |
| MealLog.MealStore.AddMeal | advanced_llm_apps/calorie_tracker_website/app.js:175-192 | the add-meal handler reports acceptance exactly for valid entries; a rejection leaves the slot unchanged; an accepted add keeps the earlier meals in order and appends the one new meal |
| MealLog.MealStore.Render | advanced_llm_apps/calorie_tracker_website/app.js:156-173 | `renderMeals` shows the summary of the log that a load returns, for the goal read from its field |
| ExercisePlan.Focus | advanced_llm_apps/calorie_tracker_website/app.js:111-118 | the focus text for each of the three named goals, and the mobility focus for any other goal |
| ExercisePlan.FocusChoice | advanced_llm_apps/calorie_tracker_website/app.js:111-118 | each of the three named goals gets its own focus, and the mobility focus is chosen iff the goal is none of them |
| ExercisePlan.EquipmentNote | advanced_llm_apps/calorie_tracker_website/app.js:120-125 | the note for "gym", for "minimal", and the bodyweight note for any other choice |
| ExercisePlan.EquipmentNoteChoice | advanced_llm_apps/calorie_tracker_website/app.js:120-125 | "gym" and "minimal" get their own notes, and the bodyweight note is chosen iff the equipment is neither |
| ExercisePlan.RestLine | advanced_llm_apps/calorie_tracker_website/app.js:134 | the fixed line that closes every plan |
| ExercisePlan.RestLineStart | advanced_llm_apps/calorie_tracker_website/app.js:134 | the rest line starts with 'R', unlike any day line |
| ExercisePlan.DayLine | advanced_llm_apps/calorie_tracker_website/app.js:129 | the plan line for day i: `Day `, the day number's decimal text, then the focus and the intensity |
| ExercisePlan.Intensity | advanced_llm_apps/calorie_tracker_website/app.js:129 | day i is "moderate" iff i is even and "high" iff i is odd |
| ExercisePlan.DayDetail | advanced_llm_apps/calorie_tracker_website/app.js:129 | the text after the day number starts with ':', so it cannot be mistaken for a digit |
| ExercisePlan.DayLinesDistinct | advanced_llm_apps/calorie_tracker_website/app.js:127-131 | two different days never produce the same plan line |
| ExercisePlan.DayLineIsNotANote | advanced_llm_apps/calorie_tracker_website/app.js:127-134 | no day line equals an equipment note or the rest line |
| ExercisePlan.DayCount | advanced_llm_apps/calorie_tracker_website/app.js:127 | the loop runs floor(days) times when days is at least 1, and not at all for NaN or smaller values |
| ExercisePlan.LoopTestIsDayCount | advanced_llm_apps/calorie_tracker_website/app.js:127 | the loop test `i <= days` passes for day i iff i is at most DayCount(days) |
| ExercisePlan.DayLines | advanced_llm_apps/calorie_tracker_website/app.js:127-131 | the day lines for days 1 to n are n lines |
| ExercisePlan.DayLinesAt | advanced_llm_apps/calorie_tracker_website/app.js:127-131 | line k of the day lines is the line for day k + 1 |
| ExercisePlan.BuildPlan | advanced_llm_apps/calorie_tracker_website/app.js:103-134 | the plan is the day lines for days 1 to DayCount(days) in order with the goal's focus, then the equipment note, then the rest line: DayCount(days) + 2 entries |

## Left out

- DOM lookups, `innerHTML`/`textContent`/style writes, clearing the form fields after
  an add, and the guards on missing page elements: the model keeps the values the page
  would show, not the markup.
- The conversion of form text by `Number(...)`: handlers take its result as a `Num`.
  Infinity is not modelled. The script would store an infinite calorie value as `null`;
  an infinite day count is covered by the `ExercisePlan.BuildPlan` line below.
- IEEE floating point: calories, totals and progress are exact reals, so rounding in the
  sum and the division is not modelled.
- ExercisePlan.BuildPlan: no bound on the plan's length. In the script `plan.push`
  throws a RangeError once the list would pass 2^32 - 1 entries, so a day count of
  2^32 - 1 or more, Infinity included, ends the handler with no plan shown. The model
  returns DayCount(days) + 2 lines.
- MealLog.MealStore.Save: the write always succeeds when storage exists. In the script
  `localStorage.setItem` can throw (storage full or disabled), and nothing catches it.
- MealLog.MealStore.AddMeal: promises the meal is stored whenever the entry is valid and
  storage exists. A throwing write would end the click handler after the `push`: nothing
  stored, the fields not cleared, no re-render. Failing writes are not modelled.
- The number-to-text of calories in a row and the thousands-grouped total
  (`formatNumber`, `Intl.NumberFormat`): a row keeps the calorie number, and the summary
  keeps the total as a number.
- JSON encoding: the slot is abstract (absent, unparsable, parses to a falsy value, or a
  meal array). Stored JSON that parses to a truthy non-array value is not modelled; the
  script would then fail on `map` or `push`. Nor is an array holding other values: one
  with `null` elements fails on `meal.name`, and others render whatever their fields
  give; for example `[1, 2]` gives rows "undefined (undefined)" and a NaN total.
- The image preview (`FileReader`, asynchronous), the random "AI analysis", the BMI and
  diet plan (floating-point formulas), login and the dashboard: not part of the meal log
  or the exercise plan.
