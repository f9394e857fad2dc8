/**
 * The observable effects a form or list item produces, in the order it
 * produces them: closing its dialog, a write handed to a mutation or to the
 * store, and the callbacks it notifies.
 */
module UiActions {
  import opened Records

  datatype UiAction =
    | Close                                   // `onClose()`
    | InsertLogEntry(insert: LogEntryInsert)  // `useInsertLogEntryMutation().mutate(...)`
    | UpdateLogEntry(update: LogEntryUpdate)  // `useUpdateLogEntryMutation().mutate(...)`
    | DeleteLogEntry(delete: LogEntryDelete)  // `useDeleteLogEntryMutation().mutate(...)`
    | InsertFood(food: FoodInsert)            // `from('foods').insert(...)`
    | DeleteFood(foodId: string)              // `from('foods').delete().eq('id', ...)`
    | FoodAdded                               // `onFoodAdded()`
    | EntryUpdated                            // `onEntryUpdated()`
}
