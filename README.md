# Calorie tracker core, modelled in Dafny

This project models the core of the calorie tracker, a React and TypeScript
client over a Supabase store. Users log what they eat and keep a catalogue of
foods. The model covers:

- **The calorie resolver** (`caloriesForLogEntry`).
  - A truthy `calories_override` wins.
  - Otherwise the value is `amount * food_calories_p100 / 100`, where a null counts as 0.
- **The day read and the three log-entry mutations** (`src/utils/queries.ts`).
  - The store is a value `Queries.Database`.
  - The query cache is the class `Queries.QueryCache`. Its partitions are keyed by `['log_entries', 'by_date', isoDate]`.
  - Each mutation invalidates the partition of its payload's timestamp once the request resolves.
  - A read whose select fails still resolves, with `data: null`, and that null is cached for the day until the key is invalidated or, once stale, refetched (`Queries.FailedReadPersists`, `Queries.QueryCache.Refetch`).
  - The main result is `Queries.InvalidationRestoresCoherence`: after that invalidation, every cached day that holds rows still equals what the store returns for it.
- **The day screens.**
  - The list mapping (`LogListItems.tsx`) and the day view with its total (`src/screens/log-view/LogView.tsx`).
  - The swipe and date-picker navigation (`src/screens/log/LogView.tsx`, `CurrentDatePicker.tsx`).
  - The list items with their delete confirmation (`LogViewListItem.tsx`, `FoodsViewListItem.tsx`).
- **The three forms**: add entry, edit entry and add food.
  - Each is a class holding the form's React state.
  - The add-entry form includes its two effects, with React's order of effect runs.
  - Each form has a pure transition function per event.
- **The in-memory mock store** (`createMockDevSupabaseClient`).
  - A class whose two tables are `seq` fields.
  - Its `select`/`eq`/`order`, `insert`, `update().eq` and `delete().eq` are modelled with JavaScript's `===`, truthiness and `Math.max` semantics.

Shared modules:

- `JsNumbers` models JavaScript's `Number(text)` on decimal texts and, in plain decimal notation, the number-to-text conversion of `toString()` and template literals. It proves that the two round-trip.
- `Time` models instants as milliseconds and days as integers.
  - Luxon's `startOf('day')`, `endOf('day')` (23:59:59.999) and `plus({days})` are written out.
  - Luxon's `toISODate` (ISO 8601 calendar date, YYYY-MM-DD) is a parameter `Day -> string`, assumed only to be injective where a lemma needs it.

Events that the source triggers from the outside are method parameters:

- the current time;
- the store's reply to a write;
- whether a read failed;
- the rendered time of day.

UI callbacks (`onClose`, `onFoodAdded`, `onEntryUpdated`, a mutation call) are returned as a sequence of `UiActions.UiAction` values, in the order the source makes them.

## Model

| member | source | states |
|---|---|---|
| CalorieTools.ResolverMatchesResolution | src/utils/calorieTools.ts:1-8 | The resolver equals an independent case analysis: a present non-zero override; else amount × per-100 g / 100 when both are present; else 0 |
| CalorieTools.OverrideWins | src/utils/calorieTools.ts:2-4 | A truthy override is returned exactly, negative values included, whatever the amount and per-100 g figure are |
| CalorieTools.ZeroOverrideIsAbsent | src/utils/calorieTools.ts:2 | An override of 0 is falsy: the row resolves as if it had none, to amount × per-100 g / 100 |
| CalorieTools.LinearInAmount | src/utils/calorieTools.ts:6 | Without an override the value is linear in the amount |
| CalorieTools.MissingFoodFieldsGiveZero | src/utils/calorieTools.ts:6 | Without an override, a null amount or a null per-100 g figure (an orphaned food) gives 0 |
| CalorieTools.DependsOnThreeFields | src/utils/calorieTools.ts:1-8 | The value depends on the override, the amount and the per-100 g figure only |
| CalorieTools.ChickenBreastExample | src/utils/calorieTools.ts:6 | 150 g at 165 cal/100 g with no override is 247.5 |
| JsNumbers.NumberOfNumText | src/components/edit-quick-log-dialog/EditQuickLogBody.tsx:19 | `Number(x.toString()) === x` for every finite number with up to 20 fractional digits |
| JsNumbers.NumberOfIntegerText | src/components/edit-quick-log-dialog/EditQuickLogBody.tsx:19 | The text round trip holds for every whole number, negatives included |
| JsNumbers.NumberOfDigits | src/components/add-food-dialog.tsx/AddFoodBody.tsx:18-21 | A text matching `/^[0-9]+$/` converts to the natural number its digits spell |
| Time.InReadRangeIff | src/utils/queries.ts:20-21 | An instant is in day d's read range exactly when it falls on day d and is not d's last millisecond |
| Time.LastInstantUnread | src/utils/queries.ts:20-21 | The instant `endOf('day')` belongs to its day but to no day's read range |
| Time.OnDay | src/components/add-quick-log-dialog/AddQuickLogBody.tsx:16-21 | The current time moved onto the entry's date lies on that day at the same time of day |
| LogListItems.Label | src/screens/log/LogListItems.tsx:16-22 | The label is never empty: it is "Manual Entry", the description or the food name |
| LogListItems.ListItems | src/screens/log/LogListItems.tsx:14-29 | One item per fetched row, in order, each carrying its row, its resolved calories and its label |
| LogListItems.DescriptionFirst | src/screens/log/LogListItems.tsx:17-18 | A non-empty description is the label whatever the food name |
| LogListItems.FoodNameSecond | src/screens/log/LogListItems.tsx:20-21 | With no description, a non-empty food name is the label |
| LogListItems.ManualEntryLast | src/screens/log/LogListItems.tsx:16 | With neither, the label is "Manual Entry" |
| LogListItems.EmptyDescriptionFallsThrough | src/screens/log/LogListItems.tsx:17 | An empty description labels the row exactly as a missing one does |
| Queries.InvalidationKeyIsReadKey | src/utils/queries.ts:35-38 | The key a mutation invalidates is the read key of its timestamp's day and of no other day |
| Queries.KeysSeparateDays | src/utils/queries.ts:10 | Two days share a cache partition only if they are the same day |
| Queries.FindFood | src/utils/queries.ts:15-18 | The food found has the requested id and is in the table; none is found only if no food has that id |
| Queries.Join | src/utils/queries.ts:13-19 | The joined row keeps the entry; its food name is null exactly when the entry has no food or its food is missing |
| Queries.SelectDay | src/utils/queries.ts:11-21 | The day read holds the joined rows of exactly the stored entries in the day's read range |
| Queries.FetchDayFindsEntry | src/utils/queries.ts:20-21 | A stored entry is read back on its own day, unless it sits on 23:59:59.999, which no day reads |
| Queries.InsertRequest | src/utils/queries.ts:32-34 | The insert forwards the payload unchanged to `log_entries` |
| Queries.UpdateRequest | src/utils/queries.ts:48-54 | The update sends only description and calories_override, matched on the id; the timestamp is not written |
| Queries.DeleteRequest | src/utils/queries.ts:68-71 | The delete matches on the id only; the timestamp plays no part |
| Queries.StoredEntry | src/utils/queries.ts:32-34 | The stored row keeps the payload's timestamp and takes the store-assigned id |
| Queries.StampKey | src/utils/queries.ts:35-37 | The key invalidated after an insert is its timestamp's day key; for the blank timestamp it is a null-dated key that is no day's key |
| Queries.BlankInsertStoresNothing | src/utils/queries.ts:32-34 | The store keeps nothing of an insert whose timestamp is the blank text |
| Queries.ApplyChanges | src/utils/queries.ts:50-53 | An update writes the columns present in its body and keeps id, timestamp, food and amount |
| Queries.UpdateWhere | src/utils/queries.ts:48-54 | Every row with the id is updated; every other row is unchanged |
| Queries.DeleteWhere | src/utils/queries.ts:68-71 | The rows kept are exactly those whose id differs |
| Queries.UpdateKeepsOtherDay | src/utils/queries.ts:48-54 | Updating rows that all lie on one day leaves every other day's read unchanged |
| Queries.DeleteKeepsOtherDay | src/utils/queries.ts:68-71 | Deleting rows that all lie on one day leaves every other day's read unchanged |
| Queries.InsertTouchesOnlyItsDay | src/utils/queries.ts:32-38 | An insert appends its row to its own day's read and leaves every other day's read unchanged; a blank-timestamp insert changes no day's read |
| Queries.WriteTouchesOnlyItsDay | src/utils/queries.ts:27-77 | Any of the three writes changes only the read of the day its payload timestamp names |
| Queries.InvalidationRestoresCoherence | src/utils/queries.ts:35-38 | Dropping the written day's partition keeps every remaining cached day equal to the new store's read |
| Queries.BlankInsertRefreshesNoDay | src/utils/queries.ts:32-38 | After a blank-timestamp insert and its invalidation, every cached day is kept unchanged and stays coherent: no day is refreshed |
| Queries.InsertMakesItsDayStale | src/utils/queries.ts:35-38 | Without that invalidation, the insert's own day would be stale: the fresh read differs |
| Queries.QueryCache.LogEntriesByDate | src/utils/queries.ts:6-25 | A hit returns the cached partition, null included; a miss fetches and caches the rows, or null when the select fails; from a coherent cache any rows returned are the store's rows for the day, and the cache stays coherent |
| Queries.QueryCache.InvalidateQueries | src/utils/queries.ts:37 | Exactly the given key is dropped |
| Queries.QueryCache.Refetch | src/utils/ReactQueryHandler.tsx:8 | A stale partition's refetch replaces the cached rows or null by a fresh read, and keeps the cache coherent |
| Queries.QueryCache.SettleMutation | src/utils/queries.ts:35-38 | A resolved request drops the given key, error reply or not; a rejected one drops nothing |
| Queries.QueryCache.InsertLogEntry | src/utils/queries.ts:27-40 | Sends the insert request and settles on the key of the payload's timestamp text, the null-dated key for the blank text |
| Queries.QueryCache.UpdateLogEntry | src/utils/queries.ts:42-61 | Sends the update request and settles on the payload's timestamp |
| Queries.QueryCache.DeleteLogEntry | src/utils/queries.ts:63-77 | Sends the delete request and settles on the payload's timestamp |
| Queries.InsertThenRead | src/utils/queries.ts:27-40 | After an insert, reading the day it lands on returns the new store's rows; a blank-timestamp insert leaves the store as it was; either way the cache stays coherent |
| Queries.FailedReadPersists | src/utils/queries.ts:9-24 | A failed read caches null: the next read of the day is null even if the store now answers, until an invalidation or a stale refetch brings the store's rows |
| DayLogView.CalorieCounts | src/screens/log-view/LogView.tsx:54-57 | Each row's `calorie_count` is its resolved calories, in row order |
| DayLogView.TotalIsSumOfCounts | src/screens/log-view/LogView.tsx:49 | The total shown is the sum of the listed `calorie_count` values; an empty day totals 0 |
| DayLogView.TotalAppend | src/screens/log-view/LogView.tsx:49 | The total of two runs of rows is the sum of their totals, whichever run comes first |
| DayLogView.DisplayedTotal | src/screens/log-view/LogView.tsx:49 | No total without data; otherwise the sum of the counts |
| DayLogView.RowTextName | src/screens/log-view/LogView.tsx:60 | The row text starts with the food name when one is present, even an empty one, else "Manual Entry" |
| DayLogView.RowTextIgnoresDescription | src/screens/log-view/LogView.tsx:60 | The description plays no part in the row text |
| DayLogView.DayLogScreen.constructor | src/screens/log-view/LogView.tsx:11-16 | The view starts with no rows and the filter on today's day |
| DayLogView.DayLogScreen.GetLogEntries | src/screens/log-view/LogView.tsx:19-33 | The rows become the store's read of the filter day, or null when the read failed |
| DayLogView.DayLogScreen.ChangeDate | src/screens/log-view/LogView.tsx:35-44 | Picking a day sets the filter and reloads that day's rows |
| MockStore.FilterEq | src/test/mocks/supabaseDevServer.tsx:120-121 | The filter keeps exactly the rows whose column is `===` the value |
| MockStore.FilterEqAppend | src/test/mocks/supabaseDevServer.tsx:121 | The filter keeps table order |
| MockStore.FindIndex | src/test/mocks/supabaseDevServer.tsx:166 | The first row whose column is `===` the value, or -1 when none is |
| MockStore.InsertedRows | src/test/mocks/supabaseDevServer.tsx:145-149 | One row more at the end, carrying the values with the new id and creation time set over them |
| MockStore.UpdatedRows | src/test/mocks/supabaseDevServer.tsx:164-169 | Only the first match is merged with the values, which override its properties; no other row changes |
| MockStore.DeletedRows | src/test/mocks/supabaseDevServer.tsx:186-191 | Only the first match is removed; the others keep their order |
| MockStore.SortRows | src/test/mocks/supabaseDevServer.tsx:129-132 | The sorted copy is a permutation of the table |
| MockStore.SortRowsSorts | src/test/mocks/supabaseDevServer.tsx:128-132 | On a numeric column the copy is ascending, or descending when `ascending` is `false` |
| MockStore.NewIdAboveIds | src/test/mocks/supabaseDevServer.tsx:147 | With numeric ids the new id exceeds every existing id |
| MockStore.EmptyTableId | src/test/mocks/supabaseDevServer.tsx:147 | An empty table gives the id -Infinity |
| MockStore.NaNIdPoisons | src/test/mocks/supabaseDevServer.tsx:147 | One non-numeric id makes the new id NaN |
| MockStore.SeedSpellings | src/test/mocks/supabaseDevServer.tsx:44-75 | The seed entries carry `food_grams`, not `amount`, and upper-case food types |
| MockStore.FirstLogEntryIdIsFour | src/test/mocks/supabaseDevServer.tsx:147 | The first insert into the seeded log gets id 4 |
| MockStore.DeleteSeedEntry | src/test/mocks/supabaseDevServer.tsx:185-191 | Deleting seed entry 2 leaves entries 1 and 3 in order |
| MockStore.MockClient.constructor | src/test/mocks/supabaseDevServer.tsx:102-105 | Each client starts from the two seed tables |
| MockStore.MockClient.Select | src/test/mocks/supabaseDevServer.tsx:112-119 | The table's rows; none for an unknown table |
| MockStore.MockClient.SelectEq | src/test/mocks/supabaseDevServer.tsx:120-127 | Exactly the rows whose column is `===` the value |
| MockStore.MockClient.SelectOrder | src/test/mocks/supabaseDevServer.tsx:128-138 | A permutation of the table, sorted on a numeric column in the requested direction |
| MockStore.MockClient.Insert | src/test/mocks/supabaseDevServer.tsx:144-159 | Appends the new row to that table only, and answers with the values as given |
| MockStore.MockClient.UpdateEq | src/test/mocks/supabaseDevServer.tsx:160-181 | Merges into the first match of that table only, and answers with the values |
| MockStore.MockClient.DeleteEq | src/test/mocks/supabaseDevServer.tsx:182-203 | Removes the first match of that table only |
| AddQuickLog.CanSubmitCases | src/components/add-quick-log-dialog/AddQuickLogBody.tsx:87-93 | Without a food, Add is enabled exactly for valid calories; with a food, exactly for a fixed-serving food or a valid amount |
| AddQuickLog.ValidCaloriesOnNumbers | src/components/add-quick-log-dialog/AddQuickLogBody.tsx:27-29 | Every number but 0 is valid calories, negatives included; blank and "0" are not |
| AddQuickLog.ValidAmountOnNumbers | src/components/add-quick-log-dialog/AddQuickLogBody.tsx:33-35 | An amount is valid exactly when it is positive; blank is not |
| AddQuickLog.CaloriesEffectWritesOnlyCalories | src/components/add-quick-log-dialog/AddQuickLogBody.tsx:74-85 | The second effect changes the calories text and nothing else |
| AddQuickLog.EntryStamp | src/components/add-quick-log-dialog/AddQuickLogBody.tsx:42 | The picked time's ISO text, the current time's for a cleared picker, and the blank text exactly when the picker holds an invalid time |
| AddQuickLog.InvalidTimeLosesEntry | src/components/add-quick-log-dialog/AddQuickLogBody.tsx:38-46 | Submitting with an invalid picker time closes the dialog, sends the blank timestamp, stores nothing and invalidates no day's key |
| AddQuickLog.AddEntry | src/components/add-quick-log-dialog/AddQuickLogBody.tsx:38-46 | Closes first, blanks the calories, and inserts the payload built from the values before blanking |
| AddQuickLog.SubmittedEntryIsOverride | src/components/add-quick-log-dialog/AddQuickLogBody.tsx:41-45 | With a valid or cleared time, the stored row has no food and no amount, its timestamp is the picked or current time, and the shown calories become its override and resolve back when finite and non-zero |
| AddQuickLog.InitialState | src/components/add-quick-log-dialog/AddQuickLogBody.tsx:16-32 | The form opens on the entry's day at the current time of day and cannot be submitted |
| AddQuickLog.ClearingFoodBlanks | src/components/add-quick-log-dialog/AddQuickLogBody.tsx:67-71 | Clearing the food blanks the amount, calories and description |
| AddQuickLog.PickingFoodFillsFields | src/components/add-quick-log-dialog/AddQuickLogBody.tsx:57-66 | Picking a food names the entry after it and fills in its serving size when it has one |
| AddQuickLog.PickingFixedFood | src/components/add-quick-log-dialog/AddQuickLogBody.tsx:81-82 | A food that is not by weight and has fixed calories sets the calories to them |
| AddQuickLog.PickedFoodSubmitsScaledCalories | src/components/add-quick-log-dialog/AddQuickLogBody.tsx:74-93 | Picking a by-weight food with a serving size makes the form submittable with grams × per-100 g / 100 as the override |
| AddQuickLog.ScaledCaloriesEffect | src/components/add-quick-log-dialog/AddQuickLogBody.tsx:76-78 | A valid amount on a by-weight food sets the calories to the scaled figure |
| AddQuickLog.SwitchingToFoodWithoutFigureKeepsCalories | src/components/add-quick-log-dialog/AddQuickLogBody.tsx:74-85 | Switching to a by-weight food with no per-100 g figure keeps the previous food's calories, and they can be submitted |
| AddQuickLog.RepickIsNoOp | src/components/add-quick-log-dialog/AddQuickLogBody.tsx:107 | Picking the food already picked changes nothing |
| AddQuickLog.QuickLogForm.constructor | src/components/add-quick-log-dialog/AddQuickLogBody.tsx:16-32 | The fields start as the initial state |
| AddQuickLog.QuickLogForm.ChangeTime | src/components/add-quick-log-dialog/AddQuickLogBody.tsx:102 | Only the time changes, to the picker's value as given: null, invalid or a time |
| AddQuickLog.QuickLogForm.ChangeDescription | src/components/add-quick-log-dialog/AddQuickLogBody.tsx:152 | Only the description changes |
| AddQuickLog.QuickLogForm.ChangeCalories | src/components/add-quick-log-dialog/AddQuickLogBody.tsx:142 | The quick-set field is editable only while no food is picked |
| AddQuickLog.QuickLogForm.ChangeAmount | src/components/add-quick-log-dialog/AddQuickLogBody.tsx:119 | The amount changes and the calories effect follows |
| AddQuickLog.QuickLogForm.ChangeFood | src/components/add-quick-log-dialog/AddQuickLogBody.tsx:105-109 | The food changes, unless quick-set is in use, and both effects settle |
| AddQuickLog.QuickLogForm.ClickAdd | src/components/add-quick-log-dialog/AddQuickLogBody.tsx:158 | Submits when `canSubmit`, else does nothing |
| AddQuickLog.QuickLogForm.PressEnter | src/components/add-quick-log-dialog/AddQuickLogBody.tsx:48-52 | Enter submits without consulting `canSubmit` |
| AddQuickLog.QuickLogForm.ClickCancel | src/components/add-quick-log-dialog/AddQuickLogBody.tsx:159 | Cancel only closes |
| EditQuickLog.ValidCaloriesOnNumbers | src/components/edit-quick-log-dialog/EditQuickLogBody.tsx:21-23 | Save is enabled exactly for positive numbers; blank is not |
| EditQuickLog.UpdateEntry | src/components/edit-quick-log-dialog/EditQuickLogBody.tsx:26-34 | Closes first, then updates the entry with the id and timestamp it was opened with, writing the description as typed and `Number(calories)` as the override |
| EditQuickLog.UnchangedFormSavesInitialCalories | src/components/edit-quick-log-dialog/EditQuickLogBody.tsx:18-34 | Saving the form as opened writes back the initial label and calories exactly |
| EditQuickLog.EnterWritesNegativeCalories | src/components/edit-quick-log-dialog/EditQuickLogBody.tsx:36-40 | Enter saves a negative value that the Save button would refuse |
| EditQuickLog.EditQuickLogForm.constructor | src/components/edit-quick-log-dialog/EditQuickLogBody.tsx:18-19 | The fields start as the initial label and the text of the initial calories |
| EditQuickLog.EditQuickLogForm.ChangeDescription | src/components/edit-quick-log-dialog/EditQuickLogBody.tsx:55 | Only the description changes |
| EditQuickLog.EditQuickLogForm.ChangeCalories | src/components/edit-quick-log-dialog/EditQuickLogBody.tsx:62 | Only the calories text changes |
| EditQuickLog.EditQuickLogForm.ClickSave | src/components/edit-quick-log-dialog/EditQuickLogBody.tsx:69 | Saves when `canSubmit`, else does nothing |
| EditQuickLog.EditQuickLogForm.PressEnter | src/components/edit-quick-log-dialog/EditQuickLogBody.tsx:36-40 | Enter saves without consulting `canSubmit` |
| EditQuickLog.EditQuickLogForm.ClickCancel | src/components/edit-quick-log-dialog/EditQuickLogBody.tsx:70 | Cancel only closes and writes nothing |
| AddFood.ValidCaloriesExamples | src/components/add-food-dialog.tsx/AddFoodBody.tsx:18-21 | Every digit text of a natural number is valid and converts to it; blank, signed, decimal and padded texts are not |
| AddFood.FoodPayload | src/components/add-food-dialog.tsx/AddFoodBody.tsx:30-37 | By weight fills the per-100 g and serving columns; fixed fills the fixed column; the other mode's columns are null |
| AddFood.PayloadFillsOneMode | src/components/add-food-dialog.tsx/AddFoodBody.tsx:33-35 | Exactly one serving-mode group is filled: the one of the food's type |
| AddFood.AddEntry | src/components/add-food-dialog.tsx/AddFoodBody.tsx:25-43 | Closes, blanks the calories, inserts the food, then signals it added |
| AddFood.FoodAddedRegardlessOfError | src/components/add-food-dialog.tsx/AddFoodBody.tsx:39-42 | `onFoodAdded` follows the insert whatever the store replied |
| AddFood.FoodForm.constructor | src/components/add-food-dialog.tsx/AddFoodBody.tsx:13-17 | The form opens by weight with a 100 g serving and everything else blank |
| AddFood.FoodForm.ChangeName | src/components/add-food-dialog.tsx/AddFoodBody.tsx:108 | Only the name changes |
| AddFood.FoodForm.ChangeDescription | src/components/add-food-dialog.tsx/AddFoodBody.tsx:114 | Only the description changes |
| AddFood.FoodForm.ChangeCalories | src/components/add-food-dialog.tsx/AddFoodBody.tsx:78 | Only the calories text changes |
| AddFood.FoodForm.ChangeServingSize | src/components/add-food-dialog.tsx/AddFoodBody.tsx:86 | Only the serving size changes |
| AddFood.FoodForm.ChangeServingType | src/components/add-food-dialog.tsx/AddFoodBody.tsx:65 | Only the serving type changes; the calories text is kept |
| AddFood.FoodForm.ClickAdd | src/components/add-food-dialog.tsx/AddFoodBody.tsx:120 | Adds when the calories text matches the pattern, else does nothing |
| AddFood.FoodForm.PressEnter | src/components/add-food-dialog.tsx/AddFoodBody.tsx:45-49 | Enter adds without checking the calories text |
| AddFood.FoodForm.ClickCancel | src/components/add-food-dialog.tsx/AddFoodBody.tsx:121 | Cancel only closes |
| FoodsListItem.FoodLabel | src/screens/foods/FoodsViewListItem.tsx:40-46 | The label starts with the food's name, and is only the name when the food has no type |
| FoodsListItem.ByWeightLabel | src/screens/foods/FoodsViewListItem.tsx:41-42 | A by-weight food is labelled "<name>, <figure>cal/100g", where `Number` reads the figure back as its calories per 100 g, and the figure is "null" when there is none |
| FoodsListItem.FixedServingLabel | src/screens/foods/FoodsViewListItem.tsx:44-45 | A fixed-serving food is labelled "<name>, <figure>cal/serving", where `Number` reads the figure back as its calories per serving, and the figure is "null" when there is none |
| FoodsListItem.NullTextIsNotANumber | src/screens/foods/FoodsViewListItem.tsx:42 | A missing figure appears as the text "null", which is not a number |
| FoodsListItem.FoodLabelUsesOwnMode | src/screens/foods/FoodsViewListItem.tsx:41-46 | A by-weight label ignores the fixed figure and a fixed-serving label ignores the per-100 g figure |
| FoodsListItem.FoodItem.constructor | src/screens/foods/FoodsViewListItem.tsx:15-18 | Menu, confirmation and edit dialog all start closed |
| FoodsListItem.FoodItem.OpenMenu | src/screens/foods/FoodsViewListItem.tsx:51 | Opens the menu only |
| FoodsListItem.FoodItem.CloseMenu | src/screens/foods/FoodsViewListItem.tsx:64 | Closes the menu only |
| FoodsListItem.FoodItem.ChooseDelete | src/screens/foods/FoodsViewListItem.tsx:21-24 | Closes the menu and asks for confirmation; nothing is deleted |
| FoodsListItem.FoodItem.ChooseEdit | src/screens/foods/FoodsViewListItem.tsx:26-29 | Closes the menu and opens the edit dialog |
| FoodsListItem.FoodItem.CloseEdit | src/screens/foods/FoodsViewListItem.tsx:97 | Closes the edit dialog only |
| FoodsListItem.FoodItem.CancelDelete | src/screens/foods/FoodsViewListItem.tsx:87 | Closes the confirmation and deletes nothing |
| FoodsListItem.FoodItem.ConfirmDelete | src/screens/foods/FoodsViewListItem.tsx:31-38 | Closes the confirmation, deletes this food by id, then signals an update; no log entry is written |
| LogListItem.SecondaryText | src/screens/log/LogViewListItem.tsx:49 | The secondary line is the calorie count, "cal, " and the display time |
| LogListItem.SecondaryTextCarriesCalories | src/screens/log/LogViewListItem.tsx:49 | The calorie figure is read back exactly from the start of the secondary line |
| LogListItem.DeletePayload | src/screens/log/LogViewListItem.tsx:30-33 | The delete payload carries the item's id and timestamp unchanged |
| LogListItem.DeleteFromListKeepsCacheCoherent | src/screens/log/LogViewListItem.tsx:28-34 | Deleting from the list and invalidating its day keeps every cached day equal to the store's read |
| LogListItem.LogItem.constructor | src/screens/log/LogViewListItem.tsx:18-20 | Menu and confirmation start closed |
| LogListItem.LogItem.OpenMenu | src/screens/log/LogViewListItem.tsx:41 | Opens the menu only |
| LogListItem.LogItem.CloseMenu | src/screens/log/LogViewListItem.tsx:54 | Closes the menu only |
| LogListItem.LogItem.ChooseDelete | src/screens/log/LogViewListItem.tsx:22-25 | Closes the menu and asks for confirmation; nothing is deleted |
| LogListItem.LogItem.CancelDelete | src/screens/log/LogViewListItem.tsx:72 | Closes the confirmation without any mutation |
| LogListItem.LogItem.ConfirmDelete | src/screens/log/LogViewListItem.tsx:28-34 | Closes the confirmation and calls the delete mutation once with `{id, timestamp}` |
| DatePicker.Previous | src/screens/log/CurrentDatePicker.tsx:11 | The previous button moves back exactly one day |
| DatePicker.Next | src/screens/log/CurrentDatePicker.tsx:17 | The next button moves on exactly one day |
| DatePicker.PreviousNextInverse | src/screens/log/CurrentDatePicker.tsx:11-17 | Previous and next undo each other |
| DatePicker.NextRepeated | src/screens/log/CurrentDatePicker.tsx:17 | n presses of next move n days on |
| DatePicker.HeadingsDiffer | src/screens/log/CurrentDatePicker.tsx:15 | The days before and after have headings different from the selected day's |
| LogScreen.SwipeDays | src/screens/log/LogView.tsx:24-39 | A touch moves the day by -1, 0 or 1 |
| LogScreen.SwipeCases | src/screens/log/LogView.tsx:31-38 | Under 10 px or more vertical than horizontal: no move; otherwise a leftward swipe is the next day and a rightward one the previous day |
| LogScreen.CountedSwipeMoves | src/screens/log/LogView.tsx:31-38 | A swipe that passes both tests always moves the day |
| LogScreen.OppositeSwipesCancel | src/screens/log/LogView.tsx:26-38 | A swipe and its reverse move the day by opposite amounts |
| LogScreen.LogScreenState.constructor | src/screens/log/LogView.tsx:13-17 | Starts on today's day with the touch start at (-1, -1) |
| LogScreen.LogScreenState.TouchStart | src/screens/log/LogView.tsx:19-23 | Records the touch start and keeps the day |
| LogScreen.LogScreenState.TouchEnd | src/screens/log/LogView.tsx:24-39 | Moves the day by the classified swipe and keeps the touch start |
| LogScreen.LogScreenState.PickDate | src/screens/log/LogView.tsx:44 | The picked day replaces the selection |
| LogScreen.LogScreenState.ClickPrevious | src/screens/log/CurrentDatePicker.tsx:11 | Selects the previous day |
| LogScreen.LogScreenState.ClickNext | src/screens/log/CurrentDatePicker.tsx:17 | Selects the next day |

## Left out

- Time zones and daylight-saving changes: a day is always 86 400 000 ms on the local wall-clock axis. Timestamps are instants, not ISO texts: `toISO` of a valid DateTime and `DateTime.fromISO` of its text are the identity, and the one invalid text modelled is the blank one an invalid picker time produces. Luxon's `toISODate` is an injective parameter, not a formatter.
- The locale rendering of the entry time (`toLocaleString(TIME_SIMPLE)`) is a string parameter of `LogListItem.SecondaryText`.
- `Number(text)` covers the empty or blank text and signed decimals with optional fraction and surrounding ECMAScript white space and line terminators. Exponents, hexadecimal, "Infinity" and "." forms give NaN in the model.
- JsNumbers.NumText: always writes plain decimal notation. JavaScript's `toString()` switches to exponent form for magnitudes of at least 1e21 and for non-zero magnitudes below 1e-6 (`"1e+21"`, `"1e-7"`), so for those numbers the texts in `RowText`, `SecondaryText`, the food labels and the forms differ from the model's.
- IEEE-754 rounding is not modelled: numbers are exact reals. JsNumbers.NumberOfNumText is proved only for numbers with at most 20 fractional digits.
- Asynchrony is not modelled: a mutation's request and its `onSuccess` run as one step, given the outcome, with no interleaving, retries or Suspense fallback. A rejected request is modelled; the cache's refetch on invalidation is the next `LogEntriesByDate`.
- The query cache holds only the `log_entries`/`by_date` partitions. Deleting a food invalidates no query, and the model does not claim otherwise. What the database does with the log entries of a deleted food is not known from the client; the model allows entries whose food is missing (`CalorieTools.MissingFoodFieldsGiveZero`, `Queries.Join`).
- The mock store's `select` hands back the live table array, so a caller could mutate it. The model returns a copy (`seq` values), and this aliasing is not captured. `select(columns)` ignores its column list, as the source does.
- MockStore.SortRows sorts by insertion. JavaScript's sort with this inconsistent comparator may order ties differently. Only the permutation and, on numeric columns, the sortedness are claimed.
- `DailyCalorieTotal.tsx` is not part of this model. `src/screens/log/LogView.tsx` passes it a `date` prop; how that prop is used is outside the model.
- The legacy `src/LogView.tsx` and `src/screens/log-view/LogViewListItem.tsx` are not part of this model. Neither is the edit-food dialog behind `FoodsListItem.FoodItem.ChooseEdit`, whose body is not modelled.
- `FoodSearchBox`'s search is not part of this model. Picking is a parameter of `AddQuickLog.QuickLogForm.ChangeFood`. Food identity (React's reference equality) is approximated by value equality.
- Queries.QueryCache.LogEntriesByDate: partitions do not age in the model. The source marks a partition stale 60 s after it is fetched, refetches a stale one when a component mounts on it, the window regains focus or the network reconnects, and evicts one nobody observes after react-query's `gcTime`. The model has no clock: a stale refetch is an explicit `Queries.QueryCache.Refetch`, and an eviction is a key drop like `InvalidateQueries`.
- Queries.FailedReadPersists: states the cached null's lifetime in the model's terms, so a refetch that the passing of time would trigger appears only as an explicit `Refetch`.
- Queries.SelectDay: the day read has no `.order()`, so the store may return the rows in any order. The model returns them in table order, and `Queries.InsertTouchesOnlyItsDay` appends the new row at the end of its day; the set of rows is what the source fixes, the order is a modelling choice.
- LogListItem.ItemProps: the component declares the `id` prop as a string and the delete payload types it the same way. The model keeps the numeric row id that the list passes in.
- Console logging and the Supabase client's connection are outside the model.
- Real Supabase error replies are only the `error` field of a resolved request: the `onSuccess` handlers run for them too, so a failed write still invalidates its day.
