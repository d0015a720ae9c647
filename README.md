# appiva-rn core, modelled in Dafny

appiva-rn is a small income tracker for an Italian freelancer on the flat-rate
("forfettario") tax scheme. The user marks worked days on a calendar. The app
derives monthly and yearly gross income from a daily rate, splits the gross
into substitute tax, INPS contribution and net, compares the net with upcoming
expenses, and can export the stored data to a JSON backup and restore it.

This project models the logic under the screens:

- `Finance` (`finance.dfy`): the four-field tax decomposition `calculateNetFromGross`.
  It also defines `Earnings(days, rate)`, the gross of `days` worked days; a lemma
  proves it equals `days * rate`.
- `YearSummary` (`year_summary.dfy`): the year screen.
  - The per-month counting loop is a method over the map's keys, in an unspecified order.
  - Row construction is a function.
  - The in-place sort by month key is an insertion sort on an `array`.
  - The TOTAL row is a left fold.
- `Expenses` (`expenses.dfy`): the expenses screen.
  - The expected outflow is the amounts still due plus the yearly taxes.
  - The yearly gross and taxes come from the current year's worked days.
  - The shortfall flag.
  - The expense list is a class whose add and delete methods update it in place.
- `Calendar` (`calendar.dfy`): the home screen.
  - The tap toggle is a method on a class holding the worked-day map.
  - The calendar marks.
  - The selected month's statistics.
- `Backup` (`backup.dfy`): export and restore.
  - Stored and parsed values are a `Json` datatype.
  - The key-value store is a class over `map<string, Json>` with `ClearAll`, `Save`, `Export` and `Restore`.
  - The headline property is the export→restore round trip.
- `Dates` (`dates.dfy`): the date shape `YYYY-MM-DD` and its month and year keys.
  It also defines a strict lexicographic string order; date comparison and the
  month sort both rely on it.
- `Wrappers` (`wrappers.dfy`): `Option` and `Result`.

Modelling conventions:

- Money is `real`, so the rates 0.78, 0.05 and 0.2607 are exact.
- A worked-day record is `map<string, bool>`.
- The clock reading `new Date()` is a parameter `Instant(day, millisOfDay)`.
- A new expense's id is a parameter.
- A picked and parsed backup file is a parameter `Option<Json>`; `None` means the pick was cancelled.

Three behaviours of the code that the model keeps as written:

- `payDate >= today` compares local midnight of the due day with the current
  instant. So an expense due today stops counting towards the expected outflow
  once the day has begun (`Expenses.IsDue`, `Expenses.TodayAndPastExcluded`).
- Restore checks `workDays` only with `typeof === "object"`. So a `null` or an
  array passes and is written back as is (`Backup.NullOrArrayWorkDaysAccepted`).
- The home screen's month statistics count every key with the month prefix,
  including keys whose value is `false` (`Calendar.StatsIgnoreValues`). The
  year screen counts only `true` values.

## Model

| member | source | states |
|---|---|---|
| Finance.CalculateNetFromGross | src/utils/finance.ts:1-13 | base is 0.78·gross, substitute tax 5% and INPS 26.07% of the base, net is gross minus both; net plus the two withholdings is exactly gross |
| Finance.Taxes | src/screens/YearScreen.tsx:55 | the total withheld, `impostaSostitutiva + contributiInps` (also ExpenseScreen.tsx:76 and the home screen's tax total) |
| Finance.WithholdingsOnBase | src/utils/finance.ts:2-4 | substitute tax and INPS are 5% and 26.07% of the taxable base |
| Finance.ZeroGross | src/utils/finance.ts:1-12 | gross 0 gives four zero fields |
| Finance.ThousandGross | src/utils/finance.ts:1-12 | gross 1000 gives 780, 39, 203.346 and net 757.654 |
| Finance.Additive | src/utils/finance.ts:2-5 | every field of the formula on a+b is the sum of that field on a and on b |
| Finance.NetBounds | src/utils/finance.ts:2-5 | for non-negative gross, 0 ≤ net ≤ gross |
| Finance.NetMonotone | src/utils/finance.ts:2-5 | a larger gross never gives a smaller net |
| Finance.EarningsIsProduct | src/screens/YearScreen.tsx:42 | the gross of `days` days at `rate` is days·rate |
| Finance.EarningsAdd | src/screens/YearScreen.tsx:72-73 | the gross of a+b days is the gross of a days plus the gross of b days |
| Finance.EarningsNonNegative | src/screens/ExpenseScreen.tsx:69 | a non-negative rate gives a non-negative gross |
| YearSummary.CountWorkedDays | src/screens/YearScreen.tsx:31-38 | the counting loop, whatever order it visits the entries in, yields for each month key the number of true-valued dates with that 7-character prefix, and no other keys |
| YearSummary.MonthCounts | src/screens/YearScreen.tsx:31-38 | the `months` dictionary: for each month key of a worked day, the number of worked days in it (its properties are MonthCountsExact) |
| YearSummary.Bump | src/screens/YearScreen.tsx:37 | one month's count goes up by one, starting from 0 when absent; the other months are unchanged |
| YearSummary.MonthCountsExact | src/screens/YearScreen.tsx:31-40 | a month key is present exactly when it has a worked day, and its count is the number of such days, never zero |
| YearSummary.EveryWorkedDayCounted | src/screens/YearScreen.tsx:34-38 | every true-valued date of any year is counted under its own month |
| YearSummary.FalseEntryIgnored | src/screens/YearScreen.tsx:35 | removing a false-valued entry leaves all counts unchanged |
| YearSummary.RowFor | src/screens/YearScreen.tsx:41-56 | a row carries its month and count, gross = count·rate, net and taxes from the formula, net + taxes = gross |
| YearSummary.MonthEntries | src/screens/YearScreen.tsx:40 | the keys of the month dictionary, each exactly once, in unspecified order |
| YearSummary.RowsOf | src/screens/YearScreen.tsx:40-58 | the row `map`: one row per key, in the keys' order, each the row of its month and count |
| YearSummary.NotAfter | src/screens/YearScreen.tsx:61 | the comparator `a.month.localeCompare(b.month)` is not positive: b's month is not before a's |
| YearSummary.SortByMonth | src/screens/YearScreen.tsx:61 | the array ends sorted by month key and is a permutation of its former contents |
| YearSummary.InsertAt | src/screens/YearScreen.tsx:61 | one insertion step extends the sorted prefix by one element and permutes the array |
| YearSummary.PermutedRowsMatch | src/screens/YearScreen.tsx:40-61 | any reordering of the rows holds exactly the dictionary's months, each with its own row |
| YearSummary.PermutedRowsStrict | src/screens/YearScreen.tsx:61 | since the keys are unique, a sorted reordering is strictly increasing by month |
| YearSummary.FetchSummary | src/screens/YearScreen.tsx:31-61 | the summary is strictly increasing by month, has a row for exactly the populated months, and each row is that month's row at the rate |
| YearSummary.Accumulate | src/screens/YearScreen.tsx:70-76 | the reducer: label TOTAL and the field-by-field sum of accumulator and row |
| YearSummary.FoldRows | src/screens/YearScreen.tsx:69-78 | the left fold of the reducer over the rows |
| YearSummary.Total | src/screens/YearScreen.tsx:69-78 | the fold from the zero TOTAL row (its meaning is TotalIsFieldwiseSum) |
| YearSummary.FoldRowsSums | src/screens/YearScreen.tsx:69-78 | the fold adds each row's fields onto the accumulator and keeps the label TOTAL |
| YearSummary.TotalIsFieldwiseSum | src/screens/YearScreen.tsx:69-78 | each TOTAL field is the sum of that field over the rows |
| YearSummary.SumsAtRate | src/screens/YearScreen.tsx:42-56 | over rows built at one rate, summed gross is summed days times the rate, and summed net and taxes equal the formula on summed gross |
| YearSummary.TotalAtRate | src/screens/YearScreen.tsx:69-78 | TOTAL.gross = TOTAL.workedDays·rate, TOTAL.net + TOTAL.taxes = TOTAL.gross, and both come from the formula on TOTAL.gross |
| YearSummary.SumDaysCountsDates | src/screens/YearScreen.tsx:34-38 | the days of distinct month rows add up to the number of worked dates in those months |
| YearSummary.TotalCountsTrueDays | src/screens/YearScreen.tsx:34-78 | the TOTAL day count is the number of true-valued entries, from every year |
| YearSummary.YearScreen | src/screens/YearScreen.tsx:31-78 | the summary as above plus its TOTAL, whose days are all true entries and whose gross, net and taxes follow the formula |
| Expenses.IsDue | src/screens/ExpenseScreen.tsx:39-40 | `parseISO(payDate) >= today`: the due day is a later day than now, or it is today and now is exactly midnight (see TodayAndPastExcluded) |
| Expenses.DueTotal | src/screens/ExpenseScreen.tsx:38-44 | the reduce as a left fold that adds the amount of each due expense (its meaning is DueTotalIsSum) |
| Expenses.ExpectedExpenses | src/screens/ExpenseScreen.tsx:33-46 | `calculateExpectedExpenses`: the fold's total plus the taxes (its meaning is ExpectedIsTaxesPlusDue) |
| Expenses.DueExpenses | src/screens/ExpenseScreen.tsx:38-44 | an expense is among the due ones exactly when it is in the list and its pay date is not before now |
| Expenses.ExpectedIsTaxesPlusDue | src/screens/ExpenseScreen.tsx:33-46 | expected outflow = taxes + the sum of the amounts of exactly the due expenses |
| Expenses.DueTotalIsSum | src/screens/ExpenseScreen.tsx:38-44 | the reduce over the list equals the sum of the due expenses' amounts |
| Expenses.AppendExpense | src/screens/ExpenseScreen.tsx:121-134 | adding an expense raises the outflow by its amount if it is due, else leaves it as it was |
| Expenses.ExpectedAtLeastTaxes | src/screens/ExpenseScreen.tsx:38-45 | with non-negative amounts the outflow is at least the taxes |
| Expenses.ExpectedMonotone | src/screens/ExpenseScreen.tsx:38-45 | adding a non-negative expense never lowers the outflow |
| Expenses.TodayAndPastExcluded | src/screens/ExpenseScreen.tsx:37-40 | an expense due earlier than today, or today once the day has begun, is not due |
| Expenses.ExpectedExample | src/screens/ExpenseScreen.tsx:33-46 | a past expense of 100 and a future one of 200 with taxes of 50 give 250 |
| Expenses.YearWorkedDays | src/screens/ExpenseScreen.tsx:61-67 | the true-valued keys of the form YYYY-MM-DD whose year is the year of now |
| Expenses.Yearly | src/screens/ExpenseScreen.tsx:58-78 | yearly days are the true entries dated in the current year, gross = days·rate, taxes = substitute tax + INPS of that gross, the same as 0.242346·gross |
| Expenses.YearlyIgnoresOtherEntries | src/screens/ExpenseScreen.tsx:62-67 | a false entry, a key not of the form YYYY-MM-DD, or a date of another year does not change the yearly figures |
| Expenses.Shortfall | src/screens/ExpenseScreen.tsx:162 | `isNetLowerThanExpenses`: the yearly gross is below the expected outflow |
| Expenses.ShortfallExamples | src/screens/ExpenseScreen.tsx:162 | the flag is raised for gross 1000 against 1200, and not against 800 |
| Expenses.ShortfallIffDueExceedsNet | src/screens/ExpenseScreen.tsx:161-162 | gross < expected outflow holds exactly when the due amounts exceed the yearly net |
| Expenses.NoShortfallWithoutDueExpenses | src/screens/ExpenseScreen.tsx:161-162 | with nothing due and a non-negative rate, no shortfall is flagged |
| Expenses.Complete | src/screens/ExpenseScreen.tsx:98 | the draft passes the check: description and due date present and non-empty, amount present and non-zero |
| Expenses.FromDraft | src/screens/ExpenseScreen.tsx:112-117 | the new expense carries the fresh id and the draft's description, due date and amount |
| Expenses.WithoutId | src/screens/ExpenseScreen.tsx:154 | an expense survives deletion exactly when it was in the list under another id |
| Expenses.WithoutIdAppend | src/screens/ExpenseScreen.tsx:154 | deletion distributes over concatenation, so the kept expenses stay in order |
| Expenses.WithoutAbsentId | src/screens/ExpenseScreen.tsx:154 | deleting an id that no expense has changes nothing |
| Expenses.DeleteUndoesAdd | src/screens/ExpenseScreen.tsx:112-154 | deleting the fresh id of a just-added expense restores the list |
| Expenses.ExpenseList.AddExpense | src/screens/ExpenseScreen.tsx:97-142 | an incomplete draft (missing or empty text, missing or zero amount) is rejected and the list is unchanged; otherwise the expense is appended at the end |
| Expenses.ExpenseList.DeleteExpense | src/screens/ExpenseScreen.tsx:154 | the list becomes the old list without the entries for the id |
| Calendar.Toggled | src/screens/HomeScreen.tsx:44-52 | a date that is true is removed, any other date becomes true, and no other key or value changes |
| Calendar.ToggleKeepsAllTrue | src/screens/HomeScreen.tsx:44-52 | a map of only true values stays so after a tap |
| Calendar.ToggleTwice | src/screens/HomeScreen.tsx:44-52 | two taps restore the map, except for a date stored as false, which two taps remove |
| Calendar.WorkCalendar.DayPress | src/screens/HomeScreen.tsx:42-53 | the map becomes the toggle of the old map at the tapped date |
| Calendar.WorkedMark | src/screens/HomeScreen.tsx:66 | the mark of a worked day: selected, marked, colour "#4caf50" |
| Calendar.MarkedDates | src/screens/HomeScreen.tsx:65-68 | exactly the map's keys are marked, all with the same green mark |
| Calendar.MonthDates | src/screens/HomeScreen.tsx:71-73 | the keys of the map that start with the selected month, whatever their value |
| Calendar.Stats | src/screens/HomeScreen.tsx:70-89 | days = number of keys with the month prefix, gross = days·rate, and base, substitute tax, INPS and net are each the formula's field on that gross, so net plus withholdings = gross |
| Calendar.StatsIgnoreValues | src/screens/HomeScreen.tsx:71-75 | the statistics depend only on the keys, never on the values |
| Calendar.StatsAfterToggle | src/screens/HomeScreen.tsx:42-75 | a tap in the selected month adds a day when the date was absent, removes one when it was true, and keeps the count when it was false |
| Calendar.StatsOtherMonth | src/screens/HomeScreen.tsx:42-75 | a tap outside the selected month leaves its statistics unchanged |
| Calendar.StatsAgreeWithYearScreen | src/screens/HomeScreen.tsx:71-75 | on a map of true values, the month count equals the year screen's count for that month |
| Backup.Truthy | src/utils/exportBackup.ts:14 | JavaScript truthiness: false for null, false, 0 and the empty string, true otherwise |
| Backup.Entries | src/utils/exportBackup.ts:12 | `Object.entries` as a map: an object's fields, an array's or a string's indices, nothing for other values |
| Backup.TypeOf | src/utils/restoreBackup.ts:19-26 | `typeof`: "undefined" for a missing field, "boolean", "number", "string", and "object" for null, arrays and objects |
| Backup.DocumentJson | src/utils/exportBackup.ts:22-29 | the document as the JSON object with the four fields that writing and reading the file give back |
| Backup.LoadOr | src/utils/exportBackup.ts:7-9 | a missing key or a stored null gives the fallback, anything else the stored value |
| Backup.BoolsJson | src/utils/exportBackup.ts:22-27 | the JSON object a worked-day map is stored and exported as: each date mapped to its boolean |
| Backup.TrueOnly | src/utils/exportBackup.ts:12-20 | the filtered map holds exactly the names whose value is truthy, each mapped to true |
| Backup.FilterWorkDays | src/utils/exportBackup.ts:12-20 | the reduce, in whatever order it visits the entries, yields the truthy-only map |
| Backup.TrueOnlyDomain | src/utils/exportBackup.ts:12-20 | the filter only removes names |
| Backup.TrueOnlyIdempotent | src/utils/exportBackup.ts:12-20 | filtering the filtered map changes nothing |
| Backup.TrueOnlyOfWorkDays | src/utils/exportBackup.ts:12-20 | on a worked-day map the filter keeps exactly the dates marked true |
| Backup.BackupOf | src/utils/exportBackup.ts:7-27 | the document has the given time stamp, and its work days are a subset of the stored ones |
| Backup.EmptyStoreDefaults | src/utils/exportBackup.ts:7-27 | an empty store exports rate 220, no work days and an empty expense list |
| Backup.Property | src/utils/restoreBackup.ts:22 | the destructuring `const { … } = data`: the field of an object, undefined for a missing field or a non-object |
| Backup.IsArray | src/utils/restoreBackup.ts:27 | `Array.isArray`: the field is present and a JSON array |
| Backup.Validate | src/utils/restoreBackup.ts:19-30 | null and primitive documents get "Invalid backup format"; an array, or an object without a numeric rate, an object-typed work-days field and an array of expenses, gets "Missing or invalid fields in backup"; otherwise the three fields are taken as they are |
| Backup.RestoredStore | src/utils/restoreBackup.ts:33-38 | after a restore the store holds exactly dailyRate, workDays and expenses with the document's values |
| Backup.NullOrArrayWorkDaysAccepted | src/utils/restoreBackup.ts:24-30 | a null or array work-days field passes validation |
| Backup.RoundTrip | src/utils/restoreBackup.ts:22-38 | restoring an exported document writes the exported rate, the truthy-only work days and the identical expense list |
| Backup.RoundTripOfAppState | src/utils/exportBackup.ts:12-27 | for a worked-day map, a numeric rate and an expense list, the restored store is exactly the same rate, the true dates and the same list; every other key such as netPercent is gone |
| Backup.Store.Export | src/utils/exportBackup.ts:7-27 | the method builds the document `BackupOf` describes for the current store |
| Backup.Store.Restore | src/utils/restoreBackup.ts:12-40 | a cancelled pick and a rejected document leave the store untouched; an accepted document replaces the whole store by the three restored keys |
| Backup.Store.ClearAll | src/storage/storage.ts:39-45 | the store becomes empty |
| Backup.Store.Save | src/storage/storage.ts:12-19 | the store maps the key to the value and is otherwise unchanged |
| Dates.IsDate | src/screens/YearScreen.tsx:36 | a day the model lets `parseISO` and `format` read: ten characters, dashes at positions 4 and 7, digits elsewhere (other ISO shapes are treated as no date, see Left out) |
| Dates.LexLess | src/screens/YearScreen.tsx:61 | strict order on character codes, used for `localeCompare` in the sort and for the day comparison in `payDate >= today` (ExpenseScreen.tsx:40) |
| Dates.MonthKey | src/screens/YearScreen.tsx:36 | the month key of a date is its 7-character prefix |
| Dates.YearKey | src/screens/ExpenseScreen.tsx:64-65 | the year of a date of the form YYYY-MM-DD is its 4-character prefix |
| Dates.LexLessTransitive | src/screens/YearScreen.tsx:61 | the string order used by the sort is transitive |
| Dates.LexLessTotal | src/screens/YearScreen.tsx:61 | any two distinct strings are ordered one way or the other |
| Dates.MonthOrderIsDateOrder | src/screens/YearScreen.tsx:60-61 | a date of an earlier month key is an earlier date, so sorting by month key sorts chronologically |
| Backup.DefaultRateAfterRoundTrip | src/utils/exportBackup.ts:8 | with no stored rate the screens fall back to 80, but after export and restore the store holds 220, which the screens then use |
| Dates.LexLessAsymmetric | src/screens/YearScreen.tsx:61 | no two strings are each less than the other |

## Left out

- Rendering, styles, modals, alerts and navigation (`App.tsx` and the JSX of every screen) are user interface, not logic.
- `src/screens/SettingsScreen.tsx` is not part of this model. Its only logic is a foreign `parseFloat`/`isNaN` check and then a save.
- The coverage bar `min(expected / gross * 100, 100)` is display only, and it divides by zero when the gross is 0.
- `toFixed(2)` rounding and IEEE double rounding are left out; all amounts are exact reals.
- File picking, reading, writing and sharing are left out, and so are `JSON.stringify`/`JSON.parse`. The model starts from the parsed value, and a file that fails to parse is not modelled.
- The `exportedAt` time stamp, the `Date.now()` expense id and the current instant are parameters.
- AsyncStorage is an abstract map, and each read and write is its own step. Its errors are swallowed in the app and left out here.
- React state and effect ordering is left out. So are the un-awaited `saveData` calls in restore, which are treated as sequential writes.
- The screens' load-on-focus code is left out (it reads the store with a default rate of 80).
- The unused lines `net = gross * 0.8` and `taxes = gross * 0.2` of the home screen are dead values that are never shown.
- `parseISO` and `format` are modelled only for text of the shape `YYYY-MM-DD`. Calendar validity (month 13, day 31 of February) is not checked.
- Expenses.IsDue: treats a due date that is not of the form YYYY-MM-DD (`Dates.IsDate`) as not a date, so it is never due. `parseISO` also reads other ISO shapes ("2025-12", "2025", "20251231", "2025-12-31T10:00"), and the app compares those as dates.
- Expenses.YearWorkedDays: treats a worked-day key that is not of the form YYYY-MM-DD (`Dates.IsDate`) as not a date, so it never counts towards the year. `parseISO` also reads other ISO shapes such as "2025-04", and the app counts those under their year.
- YearSummary.CountWorkedDays, YearSummary.FetchSummary, YearSummary.YearScreen: require every true-valued key to be of the form YYYY-MM-DD (`Dates.IsDate`). The calendar itself only writes keys of that form. A key `parseISO` cannot read makes `format` throw, and `fetchData` stops before the summary is set. Other ISO shapes that `parseISO` reads ("2025-04", "20250419") are excluded as well, although the app would count them under their month.
- YearSummary.SortByMonth: models `localeCompare` on same-shape keys as code-unit order. For digits and dashes the two agree.
- Finance.Earnings: is defined by repeated addition rather than `days * rate`. `Finance.EarningsIsProduct` proves the two equal, and using it keeps nonlinear arithmetic out of the other proofs.
- Expenses.Draft: the amount is a number, because the form always stores `parseFloat(text) || 0`. The `typeof === "string"` branch of `handleAddExpense` therefore never applies and is not modelled.
- Backup.Validate: `typeof` of a parsed value is derived from the `Json` case. Values that JSON cannot carry (functions, `undefined`, NaN) do not arise.
