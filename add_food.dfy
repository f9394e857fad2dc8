/**
 * The add-food form of `AddFoodBody.tsx`: a name, a description, a calories
 * text, a serving size text and a serving type. Only the calories text is
 * validated; the insert nulls the columns of the serving mode not chosen.
 */
module AddFood {
  import opened Options
  import opened JsNumbers
  import opened Records
  import opened UiActions

  datatype FoodFormState = FoodFormState(
    name: string,
    description: string,
    calories: string,
    servingSize: string,
    servingType: FoodType)

  /** The form on opening: by weight, a 100 g serving, everything else blank. */
  const InitialFoodForm: FoodFormState := FoodFormState("", "", "", "100", ByWeight)

  /** `caloriesRegex.test(value)` with `/^[0-9]+$/`. */
  predicate ValidCalories(value: string) {
    MatchesDigitsPattern(value)
  }

  /**
   * The regular expression accepts exactly the decimal texts of natural
   * numbers, leading zeros included, and then the text is the number it spells.
   */
  lemma ValidCaloriesExamples(n: nat)
    ensures ValidCalories(NatText(n)) && Number(NatText(n)) == Finite(n as real)
    ensures !ValidCalories("") && !ValidCalories("-1") && !ValidCalories("1.5") && !ValidCalories("abc")
    ensures !ValidCalories(" 1")
  {
    NatTextValue(n);
    NumberOfDigits(NatText(n));
    assert !IsDigit('-') && !IsDigit('.') && !IsDigit('a') && !IsDigit(' ');
    assert "-1"[0] == '-' && "1.5"[1] == '.' && "abc"[0] == 'a' && " 1"[0] == ' ';
  }

  /** The insert of `addEntry`: the numeric columns carry the texts as typed. */
  function FoodPayload(s: FoodFormState): (p: FoodInsert)
    ensures p.name == s.name && p.kind == s.servingType && p.description == s.description
    ensures s.servingType == ByWeight ==>
      p.caloriesP100 == Some(s.calories) && p.servingGrams == Some(s.servingSize) && p.caloriesFixed.None?
    ensures s.servingType == FixedServing ==>
      p.caloriesFixed == Some(s.calories) && p.caloriesP100.None? && p.servingGrams.None?
  {
    FoodInsert(
      s.name,
      s.servingType,
      if s.servingType == ByWeight then Some(s.calories) else None,
      if s.servingType == ByWeight then Some(s.servingSize) else None,
      if s.servingType == FixedServing then Some(s.calories) else None,
      s.description)
  }

  /** Every insert fills exactly one serving-mode group, the one of its type, and nulls the other. */
  lemma PayloadFillsOneMode(s: FoodFormState)
    ensures var p := FoodPayload(s);
      (p.caloriesFixed.Some? <==> p.kind == FixedServing)
      && (p.caloriesP100.Some? <==> p.kind == ByWeight)
      && (p.servingGrams.Some? <==> p.kind == ByWeight)
      && (p.caloriesFixed.Some? <==> !p.caloriesP100.Some?)
  {
  }

  /**
   * `addEntry`: closes the dialog, blanks the calories text, inserts the food,
   * and calls `onFoodAdded` whether or not the insert reported an error.
   */
  function AddEntry(s: FoodFormState, insertError: Option<string>): (r: (FoodFormState, seq<UiAction>))
    ensures r.0 == s.(calories := "")
    ensures r.1 == [Close, InsertFood(FoodPayload(s)), FoodAdded]
  {
    (s.(calories := ""), [Close, InsertFood(FoodPayload(s)), FoodAdded])
  }

  /** The callback follows the insert whatever the store answered. */
  lemma FoodAddedRegardlessOfError(s: FoodFormState, e1: Option<string>, e2: Option<string>)
    ensures AddEntry(s, e1) == AddEntry(s, e2)
    ensures AddEntry(s, e1).1[2] == FoodAdded
  {
  }

  class FoodForm {
    var name: string
    var description: string
    var calories: string
    var servingSize: string
    var servingType: FoodType

    function State(): FoodFormState
      reads this
    {
      FoodFormState(name, description, calories, servingSize, servingType)
    }

    constructor()
      ensures State() == InitialFoodForm
    {
      name, description, calories, servingSize, servingType := "", "", "", "100", ByWeight;
    }

    method ChangeName(value: string)
      modifies this
      ensures State() == old(State()).(name := value)
    {
      name := value;
    }

    method ChangeDescription(value: string)
      modifies this
      ensures State() == old(State()).(description := value)
    {
      description := value;
    }

    method ChangeCalories(value: string)
      modifies this
      ensures State() == old(State()).(calories := value)
    {
      calories := value;
    }

    /** The serving size field; it is never validated. */
    method ChangeServingSize(value: string)
      modifies this
      ensures State() == old(State()).(servingSize := value)
    {
      servingSize := value;
    }

    /** The serving type select; the calories text is kept across the switch. */
    method ChangeServingType(value: FoodType)
      modifies this
      ensures State() == old(State()).(servingType := value)
    {
      servingType := value;
    }

    /** The Add button: disabled, and so inert, unless the calories text is valid. */
    method ClickAdd(insertError: Option<string>) returns (actions: seq<UiAction>)
      modifies this
      ensures ValidCalories(old(calories)) ==> (State(), actions) == AddEntry(old(State()), insertError)
      ensures !ValidCalories(old(calories)) ==> State() == old(State()) && actions == []
    {
      if ValidCalories(calories) {
        var r := AddEntry(State(), insertError);
        calories := r.0.calories;
        actions := r.1;
      } else {
        actions := [];
      }
    }

    /** Enter in any text field submits without checking validity. */
    method PressEnter(insertError: Option<string>) returns (actions: seq<UiAction>)
      modifies this
      ensures (State(), actions) == AddEntry(old(State()), insertError)
    {
      var r := AddEntry(State(), insertError);
      calories := r.0.calories;
      actions := r.1;
    }

    /** Cancel, the same in all three dialogs: it calls `onClose` and nothing else, so nothing is written. */
    method ClickCancel() returns (actions: seq<UiAction>)
      ensures actions == [Close]
    {
      actions := [Close];
    }
  }
}
