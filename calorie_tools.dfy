/**
 * The calorie resolver `caloriesForLogEntry`: the calorie value of one joined
 * log-entry row. The same expression is repeated inside LogListItems and the
 * day view; it is defined once here.
 */
module CalorieTools {
  import opened Options
  import opened JsNumbers
  import opened Records

  /**
   * A truthy `calories_override` (neither null nor 0) is the value; otherwise
   * `amount * food_calories_p100 / 100`, where JavaScript multiplies a null as 0.
   */
  function CaloriesForLogEntry(row: JoinedRow): real {
    if Truthy(row.entry.caloriesOverride) then
      row.entry.caloriesOverride.value
    else
      NullAsZero(row.entry.amount) * NullAsZero(row.foodCaloriesP100) / 100.0
  }

  /**
   * The resolution order as the product describes it, written independently:
   * a present non-zero override; else, when both the amount and the food's
   * per-100 g figure are present, linear scaling; else an unresolved 0.
   */
  function ResolvedCalories(row: JoinedRow): real {
    match (row.entry.caloriesOverride, row.entry.amount, row.foodCaloriesP100)
    case (Some(o), _, _) =>
      if o != 0.0 then o else Scaled(row.entry.amount, row.foodCaloriesP100)
    case (None, _, _) => Scaled(row.entry.amount, row.foodCaloriesP100)
  }

  function Scaled(amount: Option<real>, p100: Option<real>): real {
    if amount.Some? && p100.Some? then amount.value * p100.value / 100.0 else 0.0
  }

  /** The resolver computes the described resolution on every row. */
  lemma ResolverMatchesResolution(row: JoinedRow)
    ensures CaloriesForLogEntry(row) == ResolvedCalories(row)
  {
    var a, p := row.entry.amount, row.foodCaloriesP100;
    if !Truthy(row.entry.caloriesOverride) && (a.None? || p.None?) {
      ZeroTimesAnything(NullAsZero(a), NullAsZero(p));
    }
  }

  lemma ZeroTimesAnything(a: real, p: real)
    requires a == 0.0 || p == 0.0
    ensures a * p / 100.0 == 0.0
  {
  }

  /**
   * A truthy override is returned exactly, negative ones included, whatever the
   * amount and the per-100 g figure are.
   */
  lemma OverrideWins(row: JoinedRow, amount: Option<real>, p100: Option<real>)
    requires Truthy(row.entry.caloriesOverride)
    ensures CaloriesForLogEntry(row) == row.entry.caloriesOverride.value
    ensures CaloriesForLogEntry(row.(entry := row.entry.(amount := amount), foodCaloriesP100 := p100))
         == row.entry.caloriesOverride.value
  {
  }

  /** An override of 0 is indistinguishable from a missing one. */
  lemma ZeroOverrideIsAbsent(row: JoinedRow)
    requires row.entry.caloriesOverride == Some(0.0)
    ensures CaloriesForLogEntry(row) == CaloriesForLogEntry(row.(entry := row.entry.(caloriesOverride := None)))
    ensures CaloriesForLogEntry(row) == NullAsZero(row.entry.amount) * NullAsZero(row.foodCaloriesP100) / 100.0
  {
  }

  /** Without an override the value is linear in the amount, with no rounding. */
  lemma LinearInAmount(row: JoinedRow, grams: real, factor: real)
    requires !Truthy(row.entry.caloriesOverride) && row.entry.amount == Some(grams)
    ensures CaloriesForLogEntry(row.(entry := row.entry.(amount := Some(factor * grams))))
         == factor * CaloriesForLogEntry(row)
  {
    var p := NullAsZero(row.foodCaloriesP100);
    assert (factor * grams) * p / 100.0 == factor * (grams * p / 100.0);
  }

  /**
   * Without an override, a missing amount or a missing per-100 g figure (an
   * orphaned food reference) resolves to 0.
   */
  lemma MissingFoodFieldsGiveZero(row: JoinedRow)
    requires !Truthy(row.entry.caloriesOverride)
    requires row.entry.amount.None? || row.foodCaloriesP100.None?
    ensures CaloriesForLogEntry(row) == 0.0
  {
    ZeroTimesAnything(NullAsZero(row.entry.amount), NullAsZero(row.foodCaloriesP100));
  }

  /** The value depends on the override, the amount and the per-100 g figure only. */
  lemma DependsOnThreeFields(a: JoinedRow, b: JoinedRow)
    requires a.entry.caloriesOverride == b.entry.caloriesOverride
    requires a.entry.amount == b.entry.amount && a.foodCaloriesP100 == b.foodCaloriesP100
    ensures CaloriesForLogEntry(a) == CaloriesForLogEntry(b)
  {
  }

  /** 150 g of a food with 165 cal per 100 g and no override resolves to 247.5. */
  lemma ChickenBreastExample(row: JoinedRow)
    requires row.entry.caloriesOverride.None?
    requires row.entry.amount == Some(150.0) && row.foodCaloriesP100 == Some(165.0)
    ensures CaloriesForLogEntry(row) == 247.5
  {
  }
}
