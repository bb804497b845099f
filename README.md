# Body-recomposition diet tracker: a Dafny model of its core

The application computes a user's daily calorie and macronutrient targets for body
recomposition, logs the foods they eat per day and shows them how their day and their
month compare with the targets. This project models, in Dafny, the logic behind that:

- `Recomp` (recomp.dfy): the target calculator of `lib/calculations/recomp.ts` —
  Mifflin-St Jeor BMR, maintenance calories, the "subtract" calorie upper bound,
  protein and fat grams per kg, carbs from the remaining calories with a cap, the
  macro-defined calories and the deficit percentage. The JSON configuration is a
  `RecompConfig` parameter.
- `JsNumber` (js_number.dfy): the JavaScript number operations the code relies on
  (`Math.round`, `Math.min`, `%`, `parseFloat`/`parseInt` of number inputs, division
  that may leave the reals, `x || 0`, `x || undefined`), over exact reals.
- `Foods` (foods.dfy), `Indexing` (indexing.dfy), `NameOrder` (name_order.dfy): the
  pure parts of the server actions in `lib/actions/foods.ts` — the name-keyed food
  map over `foods.json` and the custom foods, the resolution of the day's log entries,
  the day's totals, the food-name heuristic of `addFoodEntry` and the merged,
  name-sorted food list of `getAllFoods`. Database rows are given as sequences.
- `Dashboard` (dashboard.dfy): the add-food form of `DashboardClient.tsx` (a class),
  the quantity it stores, each log line shown back, the progress bars and the
  expected intake with its effective deficit.
- `Progress` (progress.dfy), `Calendar` (calendar.dfy), `DailyLogs`: the monthly
  compliance page (range, per-day classification, week grid, counts) and the
  calendar modal (colour bands, month grid, selected day).
- `CustomFoodForm` (custom_food_form.dfy): the add-custom-food dialog (a class), its
  two entry modes, validation, payload, and how the created food is later counted.
- `ProfileForm`, `Setup`, `Settings`, `Profiles`: the profile form shared by the setup
  page and the settings page (height in feet and inches, the gym-days table both
  ways, the saved payload), the setup page (a class) and the settings pages (a
  function for the server page and a class for the client form).
- `DateStrings` (date_strings.dfy): the `date` parameter normalisation of the
  dashboard page and the `YYYY-MM-DD` formatters of `lib/utils/date.ts`.

Components that hold state in React hooks and change it in handlers are classes whose
methods update fields; results of server calls they await are method parameters.
Loops that fill maps or grids are methods with invariants, each proved equal to a
function that the lemmas speak about.

## Model

| member | source | states |
|---|---|---|
| Recomp.CalculateBMR | lib/calculations/recomp.ts:15-23 | The Mifflin-St Jeor formula, 10 × weight + 6.25 × height − 5 × age, plus 5 for a man and minus 161 for a woman; no contract of its own, Recomp.BmrGenderGap and Recomp.BmrMonotone state its properties. |
| Recomp.BmrGenderGap | lib/calculations/recomp.ts:15-23 | For equal weight, height and age, the male BMR is the female BMR plus 166 kcal (+5 against -161). |
| Recomp.BmrMonotone | lib/calculations/recomp.ts:15-23 | BMR does not decrease with weight or height and does not increase with age. |
| Recomp.CalculateMaintenanceCalories | lib/calculations/recomp.ts:29-38 | Maintenance is the unrounded BMR times the configured multiplier, rounded to within half a calorie. |
| Recomp.MaintenanceIgnoresActivityLevel | lib/calculations/recomp.ts:29-38 | The activity level passed in has no effect on maintenance calories. |
| Recomp.CalculateRecompCalories | lib/calculations/recomp.ts:44-46 | The upper bound plus the subtract value is maintenance, so it lies below maintenance for a non-negative subtract value. |
| Recomp.CalculateDeficitPercentage | lib/calculations/recomp.ts:52-55 | Finite exactly when maintenance is non-zero, then within 0.005 of the exact percentage and a multiple of 0.01; otherwise the floating-point quotient by zero. |
| Recomp.CalculateProteinRequirement | lib/calculations/recomp.ts:61-64 | Grams are weight times the ratio in effect (override, else config), rounded. |
| Recomp.CalculateFatRequirement | lib/calculations/recomp.ts:70-73 | Grams are weight times the ratio in effect (override, else config), rounded. |
| Recomp.RatioFallsBackOnlyWhenUndefined | lib/calculations/recomp.ts:61-73 | An override, zero included, replaces the config ratio whatever the config; only an absent override uses the config. |
| Recomp.CalculateCarbRequirement | lib/calculations/recomp.ts:80-97 | Carbs never exceed the cap; their calories are within half a gram's calories of the remaining calories unless capped; uncapped carbs are whole grams; a result at the cap means the rounded quotient reached it, so the result is the smaller of the two. |
| Recomp.CalculateRecompTargets | lib/calculations/recomp.ts:116-159 | BMR, maintenance, protein and fats are the single calculators' results; the macro fields are consistent (calories are the sum of macro calories, carbs within the cap). |
| Recomp.TargetsDeficitPercentage | lib/calculations/recomp.ts:145-158 | The returned deficit is the percentage by which the macro-defined calories fall below maintenance, to two decimals, and not finite when maintenance is zero. |
| Recomp.TargetsNearUpperBound | lib/calculations/recomp.ts:136-144 | The macro-defined calories are at most half a carb gram's calories above the upper bound, and strictly within that distance below it unless carbs are capped. |
| Recomp.AssembleTargets | lib/calculations/recomp.ts:136-158 | The assembled targets keep the given BMR, maintenance, protein and fats, and their macros are consistent and near the upper bound. |
| Recomp.MacroSumBounds | lib/calculations/recomp.ts:136-144 | Any consistent set of targets has carbs within the cap and calories within half a carb gram of the upper bound. |
| Recomp.ExampleTargets | lib/calculations/recomp.ts:116-159 | For 70 kg, 175 cm, 30 years, male: BMR 1648.75, maintenance 2473 (not 2474, rounding BMR first), 213 g carbs, 1972 kcal, 20.26 % deficit. |
| Recomp.ExampleComponents | lib/calculations/recomp.ts:29-97 | The single rounded steps of that example: 2473, 154 g protein, 56 g fat, 213 g carbs, 20.26 %. |
| JsNumber.Round | lib/calculations/recomp.ts:37 | `Math.round`: an integer within half of the argument, halves up. |
| JsNumber.Trunc | app/setup/page.tsx:63 | What `parseInt` keeps of a decimal number: truncation toward zero. |
| JsNumber.RemTwelve | app/dashboard/settings/page.tsx:24 | `x % 12`: the remainder has the sign of the dividend and magnitude below 12, and differs from x by 12 times the truncated quotient. |
| JsNumber.Quotient | lib/calculations/recomp.ts:54 | Division is finite exactly for a non-zero divisor; otherwise +Infinity, -Infinity or NaN by the sign of the dividend. |
| JsNumber.RoundedPercent | lib/calculations/recomp.ts:54 | `Math.round(a/b*100*100)/100`: finite exactly for non-zero b, then within 0.005 of the percentage and a multiple of 0.01. |
| JsNumber.Min | app/dashboard/DashboardClient.tsx:225 | `Math.min(n, c)`: at most c for numbers and +Infinity, n itself when below c, NaN and -Infinity kept. |
| JsNumber.ParseFloat | app/setup/page.tsx:133 | A number input parses to its value, a blank one to NaN. |
| JsNumber.ParseInt | app/setup/page.tsx:135 | A number input parses to its truncated value, a blank one to NaN. |
| JsNumber.OrZero | lib/actions/foods.ts:213 | `x || 0`: the value when truthy, 0 otherwise. |
| JsNumber.OrUndefined | lib/actions/foods.ts:148 | `x || undefined`: present exactly when truthy, then unchanged. |
| Indexing.IndexBy | app/dashboard/progress/ProgressClient.tsx:37-40 | The keys of the map are exactly the keys of the list, and each key maps to an element of the list having that key. |
| Indexing.IndexByLastWins | components/dashboard/CalendarModal.tsx:26-28 | An element no later element shares its key with is the one stored under its key. |
| Foods.TruthyRates | lib/actions/foods.ts:148-158 | Each rate of a custom food becomes `undefined` when falsy and is kept otherwise. |
| Foods.BuildFoodMap | lib/actions/foods.ts:144-159 | The two loops build exactly the catalog map: foods.json indexed by name, overridden by the custom foods indexed by name. |
| Foods.CatalogNames | lib/actions/foods.ts:144-159 | A name is in the map if and only if some food of foods.json or some custom food has it. |
| Foods.CustomFoodWins | lib/actions/foods.ts:144-159 | The last custom food with a name is what the map holds for it, whatever foods.json has. |
| Foods.StaticFoodKept | lib/actions/foods.ts:144-159 | A name no custom food has maps to the last food of foods.json with that name. |
| Foods.CatalogMap | lib/actions/foods.ts:144-159 | Every key of the map is the name of the food stored under it (Foods.CatalogNames states which names are keys). |
| Foods.ResolveFood | lib/actions/foods.ts:162-203 | A known name gives its per-100g rates with absent ones as 0, its unit size, its unit ('g' when empty) and its per-piece rates with falsy ones absent; an unknown one gives the zero-rate stand-in in grams. |
| Foods.ResolveEntry | lib/actions/foods.ts:162-203 | An entry keeps its row's id, food name (as foodId) and quantity, carries a food of that name, and the stand-in when the name is unknown. |
| Foods.ResolveEntries | lib/actions/foods.ts:162-203 | One resolved entry per row, in the rows' order. |
| Foods.EntryNutrients | lib/actions/foods.ts:208-227 | Quantity 0 adds nothing; calories are calories per piece times the count for a piece food with truthy per-piece calories, else per-100g calories times grams over 100 (Foods.EntryNutrientsBranches states all four nutrients). |
| Foods.FoldTotals | lib/actions/foods.ts:206-230 | Entries that all have quantity 0 sum to zeros (Foods.FoldAppend and Foods.FoldPermutation state how the sum composes and that order does not matter). |
| Foods.FoldAppend | lib/actions/foods.ts:206-230 | The totals of two lists laid end to end are the sum of their totals. |
| Foods.FoldPermutation | lib/actions/foods.ts:206-230 | Two lists with the same entries have the same totals. |
| Foods.MissingFoodAddsNothing | lib/actions/foods.ts:164-181 | An entry whose food is in neither source adds nothing to the totals. |
| Foods.EntryNutrientsBranches | lib/actions/foods.ts:208-227 | A piece food with truthy calories per piece adds per-piece rates times the count; anything else adds per-100g rates times quantity/100; the unit size never matters. |
| Foods.RoundTotals | lib/actions/foods.ts:232-237 | Each total is rounded once, after summing, to a whole number within half of the sum. |
| Foods.GetDailyLog | lib/actions/foods.ts:82-260 | No log row gives nothing; otherwise entry i keeps row i's id, food name (as foodId) and quantity, and its food is that name resolved against the catalog map; the totals are the rounded fold of the entries; an empty day has zero totals. |
| Foods.ResolvePermutation | lib/actions/foods.ts:162-203 | Resolving two rearrangements of the same rows gives rearrangements of the same entries. |
| Foods.TotalsIgnoreEntryOrder | lib/actions/foods.ts:162-237 | The day's totals do not depend on the order in which the database returns the entries. |
| Foods.LooksLikeUuid | lib/actions/foods.ts:282 | A '-' and more than 20 characters; no contract of its own, Foods.ResolveFoodName states that any other string is stored verbatim. |
| Foods.FindCustomName | lib/actions/foods.ts:284-289 | Nothing exactly when no custom row has the id; otherwise the name of a row with that id. |
| Foods.ResolveFoodName | lib/actions/foods.ts:280-293 | A non-UUID id is stored verbatim, an id no row has is stored verbatim, and a changed name is the name of a row with that id. |
| Foods.MergedFoods | lib/actions/foods.ts:39-72 | The static foods (id = name), then the custom foods (id = row id, marked custom), nothing dropped. |
| Foods.GetAllFoods | lib/actions/foods.ts:39-75 | A rearrangement of all static and custom foods, sorted by name, each static food's id its name and each custom food a custom row. |
| Foods.CustomPickStoresName | lib/actions/foods.ts:280-293 | Picking a custom food from the list stores that food's name. |
| Foods.StaticPickStoresName | lib/actions/foods.ts:280-293 | Picking a static food stores its name when no custom food's id equals it. |
| NameOrder.Insert | lib/actions/foods.ts:75 | Inserting into a name-sorted list keeps it sorted and adds exactly the one element. |
| NameOrder.SortByName | lib/actions/foods.ts:75 | The sorted list is a permutation of the input in ascending name order. |
| Dashboard.DisplayEntry | app/dashboard/DashboardClient.tsx:339-361 | What a log line shows is exactly what that entry adds to the day's totals, labelled in grams or in the food's own unit. |
| Dashboard.StoredQuantity | app/dashboard/DashboardClient.tsx:59-68 | For a non-gram, non-piece food with a truthy unit size the stored grams divided by the unit size give back the amount typed; otherwise the amount is stored as typed. |
| Dashboard.CustomFoodRoundTrip | app/dashboard/DashboardClient.tsx:59-68 | Adding a custom food and reading the day back shows the amount typed, in the food's unit. |
| Dashboard.UnitRoundTrip | app/dashboard/DashboardClient.tsx:351-357 | The amount typed comes back from the stored quantity when the log's food has the picked unit and unit size. |
| Dashboard.StaticFoodRoundTrip | app/dashboard/DashboardClient.tsx:59-68 | The same round trip for a food of foods.json that no custom food shadows. |
| Dashboard.PieceWithoutRateReadAsGrams | app/dashboard/DashboardClient.tsx:341-361 | A piece food without truthy calories per piece stores the count but its line reads it as grams, computed per 100 g. |
| Dashboard.AddFoodForm.constructor | app/dashboard/DashboardClient.tsx:30-34 | Nothing selected, no amount, not loading, no error. |
| Dashboard.AddFoodForm.HandleAddFood | app/dashboard/DashboardClient.tsx:49-81 | Without a food or amount only the error is set and nothing is sent; otherwise the stored quantity is sent, success clears the selection, failure keeps it and shows the error. |
| Dashboard.TodayTotals | app/dashboard/DashboardClient.tsx:90 | The log's totals, all zeros without a log. |
| Dashboard.Progress | app/dashboard/DashboardClient.tsx:91-96 | The total as a percentage of a non-zero target. |
| Dashboard.BarWidth | app/dashboard/DashboardClient.tsx:221-228 | A number or +∞ becomes a number at most 100, equal to the progress when that is at most 100; −∞ and NaN pass through. |
| Dashboard.BarWidthBounds | app/dashboard/DashboardClient.tsx:221-228 | With a target the bar is a number at most 100 and equal to the progress below 100; without one it is 100 for a positive total, NaN for zero and −∞ for a negative total. |
| Dashboard.DayProgress | app/dashboard/DashboardClient.tsx:91-96 | Each total as a percentage of its non-zero target, calories against the macro-defined calories. |
| Dashboard.NoLogNoProgress | app/dashboard/DashboardClient.tsx:90-96 | With no log every bar is at 0 % once its target is non-zero. |
| Dashboard.ExpectedIntake | app/dashboard/DashboardClient.tsx:98 | The rounded middle of the buffered range, lying within the buffers around the macro-defined calories. |
| Dashboard.EffectiveDeficit | app/dashboard/DashboardClient.tsx:99 | The macro-floor deficit less the middle of the intake buffers, within half a calorie. |
| Dashboard.EffectiveDeficitPercent | app/dashboard/DashboardClient.tsx:100 | A number exactly when maintenance is non-zero, then a whole number of hundredths within 0.005 of the effective deficit as a percentage of maintenance; with zero maintenance the division's ±Infinity or NaN. |
| Progress.ComplianceBounds | app/dashboard/progress/ProgressClient.tsx:25-34 | From the macro-defined calories to maintenance minus the subtract value; the lower end is at most half a carb gram above the upper. |
| Progress.IsDayCompliant | app/dashboard/progress/ProgressClient.tsx:43-52 | No data without a log or calorie total; compliant exactly when the total lies in the range, ends included. |
| Progress.EmptyComplianceRange | app/dashboard/progress/ProgressClient.tsx:33-52 | For a 70 kg, 175 cm, 31-year-old man the range is empty and no day can be compliant. |
| Progress.BuildLogsByDate | app/dashboard/progress/ProgressClient.tsx:37-40 | The loop builds the date-indexed map of the logs, a later duplicate winning. |
| Progress.BuildWeeks | app/dashboard/progress/ProgressClient.tsx:58-79 | Full seven-cell weeks which, read row by row, are the leading blanks, the days in order and the padding; every week holds a day. |
| Progress.PlaceDays | app/dashboard/progress/ProgressClient.tsx:67-73 | The forEach lays the days after the lead cells, closing each full week, every closed week holding a day. |
| Progress.FillWeek | app/dashboard/progress/ProgressClient.tsx:76-78 | The last week is padded with empty cells to seven. |
| Progress.GridCells | app/dashboard/progress/ProgressClient.tsx:58-79 | Whole weeks: the leading blanks, the days in order from the first-day offset, then blanks to the end. |
| Progress.GridShowsEachDayOnce | app/dashboard/progress/ProgressClient.tsx:58-79 | The filled cells of the grid, in reading order, are exactly the month's days. |
| Progress.CountWhere | app/dashboard/progress/ProgressClient.tsx:94-96 | A count of the month's days, so at most their number (Progress.CountsPartitionMonth states the three counts add up to it). |
| Progress.CountsPartitionMonth | app/dashboard/progress/ProgressClient.tsx:94-96 | Compliant, non-compliant and no-data counts add up to the number of days. |
| Calendar.LogsMap | components/dashboard/CalendarModal.tsx:26-28 | Keys are the logs' dates; a log no later log shares its date with is the one stored. |
| Calendar.GetDayColor | components/dashboard/CalendarModal.tsx:55-73 | Each colour band holds exactly its calorie range: no data, neutral (≤ 0), blue (< 500), yellow (< 1500), green. |
| Calendar.NoDataAgreesWithProgress | components/dashboard/CalendarModal.tsx:55-61 | The calendar shows no data for a day exactly when the progress page classifies it as no data. |
| Calendar.CalendarDays | components/dashboard/CalendarModal.tsx:37-43 | The leading blanks then the days in order; the progress grid without its end padding. |
| Calendar.IsSelected | components/dashboard/CalendarModal.tsx:76 | The cell's date string equals the viewed date; no contract of its own, Calendar.ClickedDaySelected states that exactly the clicked day is selected. |
| Calendar.ClickedDaySelected | components/dashboard/CalendarModal.tsx:44-76 | After a day is clicked and its date string comes back through the dashboard's normalisation as the current date, exactly the clicked day of that month is highlighted (four-digit years). |
| CustomFoodForm.UnitName | components/dashboard/AddCustomFoodModal.tsx:16 | The stored unit name is non-empty, 'g' exactly for grams and 'piece' exactly for pieces. |
| CustomFoodForm.Validate | components/dashboard/AddCustomFoodModal.tsx:44-88 | Each mode rejects exactly a missing name, calories or protein of that mode, with that mode's message. |
| CustomFoodForm.BuildPayload | components/dashboard/AddCustomFoodModal.tsx:50-99 | Per piece sends the per-piece rates, blanks as 0, no per-100g rates or unit size; per 100 g the converse, with the unit size when filled; notes only when non-empty. |
| CustomFoodForm.PerPieceFoodCounting | components/dashboard/AddCustomFoodModal.tsx:50-58 | A food created per piece counts per piece only under unit 'piece' with non-zero calories; under any other unit it has no per-100g rates and adds nothing. |
| CustomFoodForm.CustomFoodModal.constructor | components/dashboard/AddCustomFoodModal.tsx:14-32 | Blank form, per-100g mode, no error, not loading. |
| CustomFoodForm.CustomFoodModal.HandleSubmit | components/dashboard/AddCustomFoodModal.tsx:36-129 | An invalid form only sets the mode's error; a valid one sends the payload, then reports and resets on success or keeps the form and shows the error; loading always ends. |
| ProfileForm.ApplyEdit | app/dashboard/settings/SettingsPageClient.tsx:38-41 | The edited field takes the new value and every other field is unchanged. |
| ProfileForm.FeetInchesToCm | app/setup/page.tsx:61-67 | Height in cm is (12 feet + inches) × 2.54, blanks as 0, non-negative for non-negative fields. |
| ProfileForm.GymDaysToActivity | app/setup/page.tsx:70-80 | 0–1 sedentary, 2 light, 5–7 active, anything else moderate, each in both directions. |
| ProfileForm.ActivityToGymDays | app/dashboard/settings/page.tsx:27-33 | The first gym-days value of a level's band, "3" for an unknown level. |
| ProfileForm.GymDaysRoundTrip | app/dashboard/settings/page.tsx:27-33 | A stored level survives seeding and resubmission; a chosen value comes back as its band's first value, unchanged exactly for 0, 2, 3, 5. |
| ProfileForm.CmToFeetInches | app/dashboard/settings/page.tsx:22-24 | The conversion as written: for non-negative heights, feet ≥ 0 and inches between 0 and 12 inclusive. |
| ProfileForm.InchesReachTwelve | app/dashboard/settings/page.tsx:22-24 | As written, 181.864 cm is shown as 5 ft 12 in. |
| ProfileForm.HeightFeetInches | app/dashboard/settings/page.tsx:22-24 | The corrected conversion: inches 0–11, and 12 × feet + inches is the rounded total of inches. |
| ProfileForm.ConversionsAgreeOnTotal | app/dashboard/settings/page.tsx:22-24 | Both conversions give the same total inches; they are equal whenever the as-written inches are below 12. |
| ProfileForm.HeightBackConversion | app/dashboard/settings/SettingsPageClient.tsx:51-54 | Converting the feet and inches back gives the stored height within 1.27 cm, exactly when it is a whole number of inches. |
| ProfileForm.PayloadOf | app/setup/page.tsx:132-143 | The height in centimetres from the feet and inches, the activity level from the gym days, the gender and the given targets, weight, body fat and age as parsed (NaN when blank); the settings form sends the same payload (app/dashboard/settings/SettingsPageClient.tsx:78-89). |
| ProfileForm.FieldsOf | app/dashboard/settings/SettingsPageClient.tsx:85-88 | The saved target fields of computed targets are all numbers. |
| ProfileForm.FieldsOfConsistent | app/dashboard/settings/SettingsPageClient.tsx:70-88 | Saved fields of consistent targets add up: calories are the macro calories' sum, carbs within the cap. |
| Setup.Complete | app/setup/page.tsx:49-54 | Weight, feet and whole years non-zero (blank as 0) and gym days chosen; no contract of its own, Setup.SetupPage.HandleInputChange states what a complete form recomputes. |
| Setup.FormTargets | app/setup/page.tsx:59-92 | Targets exist exactly when weight, height in cm and whole years are all non-zero; they are then the calculator's targets with the configured ratios. |
| Setup.SetupPage.constructor | app/setup/page.tsx:11-23 | No user, blank form with male and 3 gym days, no targets, no error. |
| Setup.SetupPage.LoadUser | app/setup/page.tsx:26-41 | A signed-in user is kept; otherwise the page goes to login; the form is untouched. |
| Setup.SetupPage.HandleInputChange | app/setup/page.tsx:43-57 | The field takes the value; a complete form with targets replaces the targets, any other form keeps the old ones. |
| Setup.SetupPage.HandleSubmit | app/setup/page.tsx:94-155 | No user asks to log in, no targets asks for fields, otherwise the form is sent with the last targets, then the dashboard or the error. |
| Setup.SubmittedTargetsMatchForm | app/setup/page.tsx:43-57 | A complete form with targets is saved with its own targets. |
| Setup.StaleTargetsExample | app/setup/page.tsx:43-57 | Blanking the weight of a complete form keeps its targets, which would be saved with a blank weight. |
| Settings.SeedFields | app/dashboard/settings/page.tsx:21-33 | The form starts from the stored weight, age, body fat and gender, a feet and an inches value, and a gym-days value that maps back to the stored activity level (Settings.SeededHeight states the height). |
| Settings.SettingsPage | app/dashboard/settings/page.tsx:6-43 | No user goes to login, no profile to setup, otherwise the form seeded from the profile, its height by the page's own (as-written) feet-and-inches conversion. |
| Settings.SeededInchesExceedInputMax | app/dashboard/settings/page.tsx:22-24 | The page seeds 181.864 cm as 5 ft 12 in, an inches value above the inches input's max of 11. |
| Settings.SeededHeight | app/dashboard/settings/SettingsPageClient.tsx:51-54 | The seeded feet and inches of a non-negative height convert back to within half an inch (1.27 cm) of it. |
| Settings.SubmittedTargets | app/dashboard/settings/SettingsPageClient.tsx:70-76 | Protein and fats are numbers exactly when the weight is filled, calories and carbs exactly when weight and age are; NaN otherwise. |
| Settings.SubmittedTargetsConsistent | app/dashboard/settings/SettingsPageClient.tsx:70-89 | With weight and age filled, the saved targets add up. |
| Settings.SeededSubmitRoundTrip | app/dashboard/settings/SettingsPageClient.tsx:25-89 | Submitting the seeded form unchanged stores the profile's own fields, for a non-negative height a height within half an inch of it, and the profile's targets at the stored height. |
| Settings.SettingsForm.constructor | app/dashboard/settings/SettingsPageClient.tsx:25-36 | The seeded form, no messages, not loading. |
| Settings.SettingsForm.HandleInputChange | app/dashboard/settings/SettingsPageClient.tsx:38-41 | The named field takes the value, nothing else changes. |
| Settings.SettingsForm.HandleSubmit | app/dashboard/settings/SettingsPageClient.tsx:43-105 | The form is always sent with recomputed targets; success confirms and goes on, failure shows the error. |
| DateStrings.BeforeFirstT | app/dashboard/page.tsx:30-32 | A prefix without 'T', shorter exactly when the input has a 'T', which then follows it. |
| DateStrings.Normalized | app/dashboard/page.tsx:28-36 | The prefix of the input that is its part before the first 'T', cut to 10 characters when longer; a short date without 'T' is unchanged. |
| DateStrings.SameDateSameDay | lib/utils/date.ts:20-23 | Within one month, two days with the same date string are the same day. |
| DateStrings.NormalizedParam | app/dashboard/page.tsx:28-36 | Absent exactly when the parameter is absent; otherwise a prefix of it, at most 10 characters, without a 'T'. |
| DateStrings.NormalizedIdempotent | app/dashboard/page.tsx:26-36 | Normalising twice is normalising once. |
| DateStrings.NormalizeDate | app/dashboard/page.tsx:26-36 | The step-by-step normalisation equals the normalised parameter; absent stays absent. |
| DateStrings.ClientDate | app/dashboard/page.tsx:59 | An empty date becomes absent, any other is passed on. |
| DateStrings.DecimalString | lib/utils/date.ts:20-23 | Decimal digits without a leading zero, one digit exactly below 10. |
| DateStrings.DecimalStringValue | lib/utils/date.ts:20-23 | Reading the digits back gives the number. |
| DateStrings.TwoDigits | lib/utils/date.ts:21-22 | Padding a number below 100 gives two digits spelling it. |
| DateStrings.DateString | lib/utils/date.ts:17-24 | Year, padded month number and padded day joined by '-'; no contract of its own, DateStrings.DateStringLayout and DateStrings.SameDateSameDay state its layout and that it determines the day. |
| DateStrings.DateStringLayout | lib/utils/date.ts:17-24 | Year digits, '-', two digits of the month 1–12, '-', two digits of the day. |
| DateStrings.FourDigitYearDate | lib/utils/date.ts:17-24 | A four-digit-year date is ten characters and normalisation leaves it unchanged. |
| DateStrings.YearDigits | lib/utils/date.ts:10 | At least four digits spelling the year. |
| DateStrings.FormatDateForDB | lib/utils/date.ts:6-11 | A string is returned unchanged. |
| DateStrings.FormattersAgree | lib/utils/date.ts:6-24 | From year 1000 on, the two formatters write a date the same way. |
| DateStrings.FormattersDiffer | lib/utils/date.ts:6-24 | Before year 1000 they differ: only formatDateForDB pads the year. |

## Left out

- Database access, authentication, cookies, routing, `router.refresh`, `setTimeout` and the `catch` branches ("An error occurred"): results of awaited calls are parameters, navigation is a returned value.
- Floating point: numbers are exact reals; only division by zero (Infinity, NaN) and blank inputs (NaN) are modelled.
- `toFixed` and the display strings of log lines and bars: the model keeps the numbers they are built from.
- The clock and date-fns' month enumeration: a month is the weekday of its first day and its days' date strings; `getTodayDateString` takes year, month index and day; `formatDateDisplay` is not modelled.
- `parseInt` of exponent or partial forms: number inputs hold a valid number or nothing.
- The configuration JSON and foods.json are parameters (`RecompConfig`, a sequence of foods).
- The order of `addFoodEntry`'s database writes (it inserts under `date`, not the computed day) and `deleteFoodEntry`, `getAllDailyLogs`, `getUserProfile` are database plumbing, not modelled.
- The calculations sidebar and the other presentational components are not part of this model.
- NameOrder.SortByName: `localeCompare` is taken as character-by-character order; locale collation and the order among equal names are not stated.
- Foods.LooksLikeUuid: strings are sequences of characters, so `.length` is taken as the character count; an id with characters outside the Basic Multilingual Plane (two UTF-16 code units each in JavaScript) near the 20-character limit can be judged differently.
- Settings.SeededSubmitRoundTrip: the height clause is stated for non-negative stored heights, the only ones the forms' `min="0"` feet and inches inputs produce; for a negative height the page's floor-and-remainder conversion can be a foot off.
- DashboardClient.tsx has no oil teaspoon/tablespoon unit; the model follows its unit-size rule.
- Foods.ResolveFoodName: `addFoodEntry` looks a custom food id up in the whole custom_foods table, every user's rows; the round-trip lemmas pass one sequence of rows as both that table and the user's catalog.

## Findings

| source | as written | input that shows it | evidently intended | confidence | as-written member | corrected member |
|---|---|---|---|---|---|---|
| app/dashboard/settings/page.tsx:22-24 | feet = floor(inches / 12), inches = round(inches % 12), so the inches can round up to 12 | heightCm = 181.864 (71.6 in) gives 5 ft 12 in | inches 0–11, a rounded-up twelfth inch carried into the feet (6 ft 0 in) | not executed | ProfileForm.InchesReachTwelve | ProfileForm.HeightFeetInches |
