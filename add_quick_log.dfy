/**
 * The add-entry form of `AddQuickLogBody.tsx`. Its state is five fields: the
 * entry time, the description, the calories text, the picked food and the
 * amount text. Two effects keep them in step with the picked food, and
 * `addEntry` turns them into an insert payload.
 *
 * React runs both effects after the render that changed the food, each with
 * that render's values, so the second effect first sees the amount as it was
 * before the first effect set it; it runs once more after the next render if
 * the amount changed. Setting the food to the food already picked changes
 * nothing and runs no effect.
 */
module AddQuickLog {
  import opened Options
  import opened JsNumbers
  import opened Time
  import opened Records
  import opened UiActions
  import opened Queries
  import opened CalorieTools

  /**
   * The time picker's value: null once cleared, an invalid DateTime while a time
   * is partly typed, or a valid time.
   */
  datatype PickerValue = Cleared | InvalidTime | Picked(instant: Instant)

  datatype QuickLogState = QuickLogState(
    timestamp: PickerValue,
    description: string,
    calories: string,
    baseFood: Option<Food>,
    foodAmount: string)

  /** `isValidCalorieValue`: `Number(value) !== 0`; NaN is not 0, so it passes. */
  predicate ValidCalories(value: string) {
    Number(value) != Finite(0.0)
  }

  /** `isValidFoodAmountValue`: `Number(value) > 0`. */
  predicate ValidAmount(value: string) {
    Number(value).Finite? && Number(value).value > 0.0
  }

  /** `usingQuickSet`: valid calories typed and no food picked. */
  predicate UsingQuickSet(s: QuickLogState) {
    ValidCalories(s.calories) && s.baseFood.None?
  }

  /** `usingFoodPicker`: a food is picked. */
  predicate UsingFoodPicker(s: QuickLogState) {
    s.baseFood.Some?
  }

  /** `canSubmit`, which enables the Add button. */
  predicate CanSubmit(s: QuickLogState) {
    if UsingQuickSet(s) then ValidCalories(s.calories)
    else if UsingFoodPicker(s) then s.baseFood.value.kind == Some(FixedServing) || ValidAmount(s.foodAmount)
    else false
  }

  /**
   * The three cases of `canSubmit`: without a food it is calorie validity; with
   * one it is a fixed-serving food or a valid amount, the calories text aside.
   */
  lemma CanSubmitCases(s: QuickLogState)
    ensures s.baseFood.None? ==> (CanSubmit(s) <==> ValidCalories(s.calories))
    ensures s.baseFood.Some? ==>
      (CanSubmit(s) <==> s.baseFood.value.kind == Some(FixedServing) || ValidAmount(s.foodAmount))
  {
  }

  /** The quick-set rule on numbers as typed: every value but 0 passes, negatives included; a blank field is 0. */
  lemma ValidCaloriesOnNumbers(x: real, k: nat)
    requires k <= MaxFractionDigits && ScaledIsInteger(x, k)
    ensures ValidCalories(NumText(x)) <==> x != 0.0
    ensures !ValidCalories("") && !ValidCalories("0")
  {
    NumberOfNumText(x, k);
    NumberOfIntegerText(0);
  }

  /** The amount rule on numbers as typed: strictly positive values only; a blank field fails. */
  lemma ValidAmountOnNumbers(x: real, k: nat)
    requires k <= MaxFractionDigits && ScaledIsInteger(x, k)
    ensures ValidAmount(NumText(x)) <==> x > 0.0
    ensures !ValidAmount("")
  {
    NumberOfNumText(x, k);
  }

  /** The first effect, on `[baseFood]`. */
  function FoodEffect(s: QuickLogState): QuickLogState {
    match s.baseFood
    case Some(food) =>
      var s1 :=
        if food.servingGrams.Some? then s.(foodAmount := NumText(food.servingGrams.value))
        else if food.caloriesFixed.Some? then s.(calories := NumText(food.caloriesFixed.value))
        else s;
      s1.(description := food.name)
    case None => s.(foodAmount := "", calories := "", description := "")
  }

  /** `Number(foodAmount) * calories_p100 / 100`. */
  function PortionCalories(grams: real, p100: real): real {
    grams * p100 / 100.0
  }

  /**
   * The second effect, on `[baseFood, foodAmount, usingFoodPicker]`, run with
   * the amount text `amountSeen` of the render it belongs to.
   */
  function CaloriesEffect(s: QuickLogState, amountSeen: string): QuickLogState {
    match s.baseFood
    case None => s
    case Some(food) =>
      if food.kind == Some(ByWeight) then
        if ValidAmount(amountSeen) && Truthy(food.caloriesP100) then
          s.(calories := NumText(PortionCalories(Number(amountSeen).value, food.caloriesP100.value)))
        else s
      else if food.caloriesFixed.Some? then s.(calories := NumText(food.caloriesFixed.value))
      else s
  }

  /** The second effect writes the calories text and nothing else. */
  lemma CaloriesEffectWritesOnlyCalories(s: QuickLogState, amountSeen: string)
    ensures CaloriesEffect(s, amountSeen) == s.(calories := CaloriesEffect(s, amountSeen).calories)
  {
  }

  /** The food search box's `onChange`; the box is disabled while quick-set calories are in use. */
  function PickFood(s: QuickLogState, food: Option<Food>): QuickLogState {
    if UsingQuickSet(s) || food == s.baseFood then s
    else
      var picked := s.(baseFood := food);
      var settled := CaloriesEffect(FoodEffect(picked), s.foodAmount);
      if settled.foodAmount != s.foodAmount then CaloriesEffect(settled, settled.foodAmount) else settled
  }

  /** Typing in the amount field; the second effect follows a change. */
  function TypeAmount(s: QuickLogState, value: string): QuickLogState {
    if s.baseFood.None? || value == s.foodAmount then s
    else CaloriesEffect(s.(foodAmount := value), value)
  }

  /** Typing in the quick-set calories field, which is shown only while no food is picked. */
  function TypeCalories(s: QuickLogState, value: string): QuickLogState {
    if s.baseFood.Some? then s else s.(calories := value)
  }

  /**
   * `(timestamp ?? DateTime.now()).toISO() ?? ''`: a cleared picker stands for
   * the current time, and an invalid time has no ISO text, so the blank text is
   * sent.
   */
  function EntryStamp(t: PickerValue, now: Instant): (stamp: IsoStamp)
    ensures stamp.BlankIso? <==> t.InvalidTime?
    ensures t.Picked? ==> stamp == IsoOf(t.instant)
    ensures t.Cleared? ==> stamp == IsoOf(now)
  {
    match t
    case Cleared => IsoOf(now)
    case InvalidTime => BlankIso
    case Picked(i) => IsoOf(i)
  }

  /** The insert payload of `addEntry`: time, `Number(calories)` and description only. */
  function EntryPayload(s: QuickLogState, now: Instant): LogEntryInsert {
    LogEntryInsert(
      EntryStamp(s.timestamp, now),
      Some(Number(s.calories)),
      Some(s.description),
      None,
      None)
  }

  /**
   * `addEntry`: closes the dialog, blanks the calories text, then hands the
   * payload, built from the values before blanking, to the insert mutation.
   */
  function AddEntry(s: QuickLogState, now: Instant): (r: (QuickLogState, seq<UiAction>))
    ensures r.0 == s.(calories := "")
    ensures r.1 == [Close, InsertLogEntry(EntryPayload(s, now))]
  {
    (s.(calories := ""), [Close, InsertLogEntry(EntryPayload(s, now))])
  }

  /**
   * The stored row of a submitted entry has no food reference and no amount:
   * whatever the form showed is kept as a calorie override, and the resolver
   * returns it when it is a finite non-zero number.
   */
  lemma SubmittedEntryIsOverride(s: QuickLogState, now: Instant, id: int, createdAt: string, userId: string)
    ensures !s.timestamp.InvalidTime? ==>
      var e := StoredEntry(EntryPayload(s, now), id, createdAt, userId);
      e.foodId.None? && e.amount.None?
      && e.caloriesOverride == StoredNumber(Some(Number(s.calories)))
      && e.timestamp == (if s.timestamp.Picked? then s.timestamp.instant else now)
      && (Number(s.calories).Finite? && Number(s.calories).value != 0.0 ==>
            CaloriesForLogEntry(JoinedRow(e, None, None)) == Number(s.calories).value)
  {
  }

  /**
   * Submitting while the picker holds an invalid time sends the blank timestamp:
   * the dialog still closes, the store keeps nothing, and the key invalidated
   * afterwards is no day's read key, so no day shows the entry.
   */
  lemma InvalidTimeLosesEntry(s: QuickLogState, now: Instant, isoDate: Day -> string,
                              db: Database, newId: int, createdAt: string, userId: string)
    requires s.timestamp.InvalidTime?
    ensures AddEntry(s, now).1[0] == Close
    ensures EntryPayload(s, now).timestamp == BlankIso
    ensures Apply(db, InsertRequest(EntryPayload(s, now)), newId, createdAt, userId) == db
    ensures forall d: Day :: StampKey(isoDate, EntryPayload(s, now).timestamp) != LogEntriesKey(isoDate, d)
  {
    BlankInsertStoresNothing(db, EntryPayload(s, now), newId, createdAt, userId);
  }

  /** The form on opening: the current time of day on the entry's day, everything else blank. */
  function InitialState(now: Instant, entryDay: Day): (s: QuickLogState)
    ensures s.timestamp.Picked? && DayOf(s.timestamp.instant) == entryDay
    ensures TimeOfDay(s.timestamp.instant) == TimeOfDay(now)
    ensures !CanSubmit(s)
  {
    BlankIsZero();
    QuickLogState(Picked(OnDay(now, entryDay)), "", "", None, "")
  }

  /** Clearing the picked food blanks the amount, the calories and the description. */
  lemma ClearingFoodBlanks(s: QuickLogState)
    requires s.baseFood.Some?
    ensures var t := PickFood(s, None);
      t.baseFood.None? && t.foodAmount == "" && t.calories == "" && t.description == ""
  {
  }

  /** Picking a food names the entry after it and fills in its serving size, if it has one. */
  lemma PickingFoodFillsFields(s: QuickLogState, food: Food)
    requires !UsingQuickSet(s) && s.baseFood != Some(food)
    ensures PickFood(s, Some(food)).baseFood == Some(food)
    ensures PickFood(s, Some(food)).description == food.name
    ensures food.servingGrams.Some? ==> PickFood(s, Some(food)).foodAmount == NumText(food.servingGrams.value)
    ensures food.servingGrams.None? ==> PickFood(s, Some(food)).foodAmount == s.foodAmount
  {
    var f := FoodEffect(s.(baseFood := Some(food)));
    assert f.baseFood == Some(food) && f.description == food.name;
    assert f.foodAmount == if food.servingGrams.Some? then NumText(food.servingGrams.value) else s.foodAmount;
    CaloriesEffectWritesOnlyCalories(f, s.foodAmount);
    var settled := CaloriesEffect(f, s.foodAmount);
    CaloriesEffectWritesOnlyCalories(settled, settled.foodAmount);
  }

  /** A food that is not by weight and has fixed calories sets the calories to that figure. */
  lemma PickingFixedFood(s: QuickLogState, food: Food)
    requires !UsingQuickSet(s) && s.baseFood != Some(food)
    requires food.kind != Some(ByWeight) && food.caloriesFixed.Some?
    ensures PickFood(s, Some(food)).calories == NumText(food.caloriesFixed.value)
  {
  }

  /**
   * Picking a by-weight food with a serving size and a non-zero per-100 g figure
   * makes the form submittable, and what it submits is the scaled figure
   * `grams * p100 / 100` as an override.
   */
  lemma PickedFoodSubmitsScaledCalories(s: QuickLogState, food: Food, now: Instant, k1: nat, k2: nat)
    requires !UsingQuickSet(s) && s.baseFood != Some(food)
    requires food.kind == Some(ByWeight) && food.servingGrams.Some? && Truthy(food.caloriesP100)
    requires food.servingGrams.value > 0.0
    requires k1 <= MaxFractionDigits && ScaledIsInteger(food.servingGrams.value, k1)
    requires k2 <= MaxFractionDigits
    requires ScaledIsInteger(PortionCalories(food.servingGrams.value, food.caloriesP100.value), k2)
    ensures CanSubmit(PickFood(s, Some(food)))
    ensures EntryPayload(PickFood(s, Some(food)), now).caloriesOverride
         == Some(Finite(PortionCalories(food.servingGrams.value, food.caloriesP100.value)))
  {
    var g, p := food.servingGrams.value, food.caloriesP100.value;
    var amount := NumText(g);
    NumberOfNumText(g, k1);
    assert ValidAmount(amount);
    PickingFoodFillsFields(s, food);
    var f := FoodEffect(s.(baseFood := Some(food)));
    CaloriesEffectWritesOnlyCalories(f, s.foodAmount);
    var settled := CaloriesEffect(f, s.foodAmount);
    assert settled.foodAmount == amount;
    var t := PickFood(s, Some(food));
    assert t == CaloriesEffect(settled, amount) by {
      if settled.foodAmount == s.foodAmount {
        assert s.foodAmount == amount;
        assert t == settled;
      }
    }
    ScaledCaloriesEffect(settled, food, amount, g);
    NumberOfNumText(PortionCalories(g, p), k2);
  }

  lemma ScaledCaloriesEffect(s: QuickLogState, food: Food, amount: string, g: real)
    requires s.baseFood == Some(food) && food.kind == Some(ByWeight) && Truthy(food.caloriesP100)
    requires Number(amount) == Finite(g) && g > 0.0
    ensures CaloriesEffect(s, amount).calories == NumText(PortionCalories(g, food.caloriesP100.value))
  {
  }

  /**
   * Switching to a by-weight food without a per-100 g figure leaves the calories
   * of the previously picked food in place, and the form can be submitted with them.
   */
  lemma SwitchingToFoodWithoutFigureKeepsCalories(s: QuickLogState, food: Food)
    requires s.baseFood.Some? && s.baseFood != Some(food)
    requires food.kind == Some(ByWeight) && food.caloriesP100.None?
    requires food.servingGrams.Some? && NumText(food.servingGrams.value) == s.foodAmount
    requires ValidAmount(s.foodAmount)
    ensures PickFood(s, Some(food)).calories == s.calories
    ensures CanSubmit(PickFood(s, Some(food)))
  {
    var f := FoodEffect(s.(baseFood := Some(food)));
    assert f == s.(baseFood := Some(food), description := food.name);
    var settled := CaloriesEffect(f, s.foodAmount);
    assert settled == f;
  }

  /** Picking the food already picked changes nothing. */
  lemma RepickIsNoOp(s: QuickLogState)
    ensures PickFood(s, s.baseFood) == s
  {
  }

  /** The form's state as React holds it. */
  class QuickLogForm {
    var timestamp: PickerValue
    var description: string
    var calories: string
    var baseFood: Option<Food>
    var foodAmount: string

    function State(): QuickLogState
      reads this
    {
      QuickLogState(timestamp, description, calories, baseFood, foodAmount)
    }

    /** Mounting the form for `entryDay` at time `now`; the mount effects leave the blank fields blank. */
    constructor(now: Instant, entryDay: Day)
      ensures State() == InitialState(now, entryDay)
    {
      timestamp := Picked(OnDay(now, entryDay));
      description := "";
      calories := "";
      baseFood := None;
      foodAmount := "";
    }

    method SetState(s: QuickLogState)
      modifies this
      ensures State() == s
    {
      timestamp, description, calories, baseFood, foodAmount :=
        s.timestamp, s.description, s.calories, s.baseFood, s.foodAmount;
    }

    /** The time picker's `onChange`, passed straight through: null, invalid or a time. */
    method ChangeTime(t: PickerValue)
      modifies this
      ensures State() == old(State()).(timestamp := t)
    {
      timestamp := t;
    }

    method ChangeDescription(value: string)
      modifies this
      ensures State() == old(State()).(description := value)
    {
      description := value;
    }

    method ChangeCalories(value: string)
      modifies this
      ensures State() == TypeCalories(old(State()), value)
    {
      SetState(TypeCalories(State(), value));
    }

    method ChangeAmount(value: string)
      modifies this
      ensures State() == TypeAmount(old(State()), value)
    {
      SetState(TypeAmount(State(), value));
    }

    method ChangeFood(food: Option<Food>)
      modifies this
      ensures State() == PickFood(old(State()), food)
    {
      SetState(PickFood(State(), food));
    }

    /** The Add button: disabled, and so inert, unless `canSubmit`. */
    method ClickAdd(now: Instant) returns (actions: seq<UiAction>)
      modifies this
      ensures CanSubmit(old(State())) ==> (State(), actions) == AddEntry(old(State()), now)
      ensures !CanSubmit(old(State())) ==> State() == old(State()) && actions == []
    {
      if CanSubmit(State()) {
        var r := AddEntry(State(), now);
        SetState(r.0);
        actions := r.1;
      } else {
        actions := [];
      }
    }

    /** Enter in the amount, calories or description field submits without consulting `canSubmit`. */
    method PressEnter(now: Instant) returns (actions: seq<UiAction>)
      modifies this
      ensures (State(), actions) == AddEntry(old(State()), now)
    {
      var r := AddEntry(State(), now);
      SetState(r.0);
      actions := r.1;
    }

    /** Cancel, the same in all three dialogs: it calls `onClose` and nothing else, so nothing is written. */
    method ClickCancel() returns (actions: seq<UiAction>)
      ensures actions == [Close]
    {
      actions := [Close];
    }
  }
}
