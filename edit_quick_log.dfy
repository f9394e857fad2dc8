/**
 * The edit-entry form of `EditQuickLogBody.tsx`: a description and a calories
 * text, seeded from the entry being edited, saved through the update mutation.
 */
module EditQuickLog {
  import opened Options
  import opened JsNumbers
  import opened Time
  import opened Records
  import opened UiActions

  /** `isValidCalorieValue` of this form: `Number(value) > 0`. */
  predicate ValidCalories(value: string) {
    Number(value).Finite? && Number(value).value > 0.0
  }

  /**
   * Save is enabled exactly for positive numbers: zero, negative values and a
   * blank field disable it.
   */
  lemma ValidCaloriesOnNumbers(x: real, k: nat)
    requires k <= MaxFractionDigits && ScaledIsInteger(x, k)
    ensures ValidCalories(NumText(x)) <==> x > 0.0
    ensures !ValidCalories("")
  {
    NumberOfNumText(x, k);
  }

  /** The props the form is opened with. */
  datatype EditProps = EditProps(id: int, timestamp: Instant, initialLabel: string, initialCalories: real)

  /** `updateEntry`'s payload: the id and timestamp props unchanged, the description and `Number(calories)`. */
  function UpdatePayload(props: EditProps, description: string, calories: string): LogEntryUpdate {
    LogEntryUpdate(props.id, props.timestamp, Some(description), Some(Number(calories)))
  }

  /** `updateEntry`: closes the dialog first, then hands the payload to the update mutation. */
  function UpdateEntry(props: EditProps, description: string, calories: string): (actions: seq<UiAction>)
    ensures |actions| == 2 && actions[0] == Close
    ensures actions[1].UpdateLogEntry? && actions[1].update.id == props.id
    ensures actions[1].update.timestamp == props.timestamp
    ensures actions[1].update.description == Some(description)
    ensures actions[1].update.caloriesOverride == Some(Number(calories))
  {
    [Close, UpdateLogEntry(UpdatePayload(props, description, calories))]
  }

  /**
   * Saving the form as it opened writes back the initial calories exactly, and
   * is enabled exactly when they are positive.
   */
  lemma UnchangedFormSavesInitialCalories(props: EditProps, k: nat)
    requires k <= MaxFractionDigits && ScaledIsInteger(props.initialCalories, k)
    ensures ValidCalories(NumText(props.initialCalories)) <==> props.initialCalories > 0.0
    ensures UpdatePayload(props, props.initialLabel, NumText(props.initialCalories)).caloriesOverride
         == Some(Finite(props.initialCalories))
    ensures UpdatePayload(props, props.initialLabel, NumText(props.initialCalories)).description
         == Some(props.initialLabel)
  {
    NumberOfNumText(props.initialCalories, k);
  }

  class EditQuickLogForm {
    const props: EditProps
    var description: string
    var calories: string

    /** `useState(initialLabel)` and `useState(initialCalories.toString())`. */
    constructor(props: EditProps)
      ensures this.props == props
      ensures description == props.initialLabel && calories == NumText(props.initialCalories)
    {
      this.props := props;
      description := props.initialLabel;
      calories := NumText(props.initialCalories);
    }

    /** `canSubmit`. */
    predicate CanSubmit()
      reads this
    {
      ValidCalories(calories)
    }

    method ChangeDescription(value: string)
      modifies this
      ensures description == value && calories == old(calories)
    {
      description := value;
    }

    method ChangeCalories(value: string)
      modifies this
      ensures calories == value && description == old(description)
    {
      calories := value;
    }

    /** The Save button: disabled, and so inert, unless `canSubmit`. */
    method ClickSave() returns (actions: seq<UiAction>)
      ensures CanSubmit() ==> actions == UpdateEntry(props, description, calories)
      ensures !CanSubmit() ==> actions == []
    {
      if CanSubmit() {
        actions := UpdateEntry(props, description, calories);
      } else {
        actions := [];
      }
    }

    /** Enter in either field saves without consulting `canSubmit`. */
    method PressEnter() returns (actions: seq<UiAction>)
      ensures actions == UpdateEntry(props, description, calories)
    {
      actions := UpdateEntry(props, description, calories);
    }

    /** Cancel, the same in all three dialogs: it calls `onClose` and nothing else, so nothing is written. */
    method ClickCancel() returns (actions: seq<UiAction>)
      ensures actions == [Close]
      ensures forall a :: a in actions ==> !a.UpdateLogEntry?
    {
      actions := [Close];
    }
  }

  /** Enter on a form holding a negative value still writes it. */
  lemma EnterWritesNegativeCalories(props: EditProps, description: string, n: int)
    requires n < 0
    ensures !ValidCalories(NumText(n as real))
    ensures UpdateEntry(props, description, NumText(n as real))[1].update.caloriesOverride == Some(Finite(n as real))
  {
    NumberOfIntegerText(n);
  }
}
