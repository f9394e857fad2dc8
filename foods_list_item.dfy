/**
 * One food of the foods list, `FoodsViewListItem.tsx`: its label, and the
 * menu, confirmation and edit-dialog flags behind the delete flow.
 */
module FoodsListItem {
  import opened Options
  import opened JsNumbers
  import opened Records
  import opened UiActions

  /** A nullable number in a template literal: its text, or "null". */
  function NullableText(n: Option<real>): string {
    match n
    case Some(x) => NumText(x)
    case None => "null"
  }

  /**
   * The label: `"<name>, <calories_p100>cal/100g"` for a by-weight food,
   * `"<name>, <calories_fixed>cal/serving"` for a fixed-serving one, and the
   * bare name for a food of any other type.
   */
  function FoodLabel(food: Food): (text: string)
    ensures |text| >= |food.name| && text[..|food.name|] == food.name
    ensures food.kind.None? ==> text == food.name
  {
    match food.kind
    case Some(ByWeight) => food.name + ", " + NullableText(food.caloriesP100) + "cal/100g"
    case Some(FixedServing) => food.name + ", " + NullableText(food.caloriesFixed) + "cal/serving"
    case None => food.name
  }

  /** The label of a food reads only the figure of its own serving mode. */
  lemma FoodLabelUsesOwnMode(food: Food, p100: Option<real>, fixed: Option<real>)
    ensures food.kind == Some(ByWeight) ==>
      FoodLabel(food.(caloriesFixed := fixed)) == FoodLabel(food)
    ensures food.kind == Some(FixedServing) ==>
      FoodLabel(food.(caloriesP100 := p100)) == FoodLabel(food)
  {
  }


  /** A missing figure is written "null", which `Number` does not read as a number. */
  lemma NullTextIsNotANumber()
    ensures NullableText(None) == "null" && Number(NullableText(None)) == NaN
  {
    var t := NullableText(None);
    assert t[0] == 'n' && t[|t| - 1] == 'l';
    WordIsNotANumber(t);
  }

  /**
   * A by-weight food is labelled `"<name>, <figure>cal/100g"`; the figure is
   * the text of its calories per 100 g, read back exactly by `Number`, or
   * "null" when it has none.
   */
  lemma ByWeightLabel(food: Food, k: nat)
    requires food.kind == Some(ByWeight)
    requires food.caloriesP100.Some? ==> k <= MaxFractionDigits && ScaledIsInteger(food.caloriesP100.value, k)
    ensures var t := NullableText(food.caloriesP100);
      FoodLabel(food) == food.name + ", " + t + "cal/100g"
      && (food.caloriesP100.Some? ==> Number(t) == Finite(food.caloriesP100.value))
      && (food.caloriesP100.None? ==> t == "null")
  {
    if food.caloriesP100.Some? {
      NumberOfNumText(food.caloriesP100.value, k);
    }
  }

  /**
   * A fixed-serving food is labelled `"<name>, <figure>cal/serving"`; the
   * figure is the text of its calories per serving, read back exactly by
   * `Number`, or "null" when it has none.
   */
  lemma FixedServingLabel(food: Food, k: nat)
    requires food.kind == Some(FixedServing)
    requires food.caloriesFixed.Some? ==> k <= MaxFractionDigits && ScaledIsInteger(food.caloriesFixed.value, k)
    ensures var t := NullableText(food.caloriesFixed);
      FoodLabel(food) == food.name + ", " + t + "cal/serving"
      && (food.caloriesFixed.Some? ==> Number(t) == Finite(food.caloriesFixed.value))
      && (food.caloriesFixed.None? ==> t == "null")
  {
    if food.caloriesFixed.Some? {
      NumberOfNumText(food.caloriesFixed.value, k);
    }
  }

  /** The menu and dialog flags of one food row. */
  class FoodItem {
    const entity: Food
    var menuOpen: bool
    var deleteConfirmationOpen: bool
    var editDialogOpen: bool

    constructor(entity: Food)
      ensures this.entity == entity
      ensures !menuOpen && !deleteConfirmationOpen && !editDialogOpen
    {
      this.entity := entity;
      menuOpen, deleteConfirmationOpen, editDialogOpen := false, false, false;
    }

    /** The "more" button anchors the menu. */
    method OpenMenu()
      modifies this
      ensures menuOpen && deleteConfirmationOpen == old(deleteConfirmationOpen)
      ensures editDialogOpen == old(editDialogOpen)
    {
      menuOpen := true;
    }

    /** Dismissing the menu. */
    method CloseMenu()
      modifies this
      ensures !menuOpen && deleteConfirmationOpen == old(deleteConfirmationOpen)
      ensures editDialogOpen == old(editDialogOpen)
    {
      menuOpen := false;
    }

    /** `handleDelete`: closes the menu and asks for confirmation; nothing is deleted. */
    method ChooseDelete() returns (actions: seq<UiAction>)
      modifies this
      ensures !menuOpen && deleteConfirmationOpen && editDialogOpen == old(editDialogOpen)
      ensures actions == []
    {
      menuOpen := false;
      deleteConfirmationOpen := true;
      actions := [];
    }

    /** `handleEdit`: closes the menu and opens the edit dialog. */
    method ChooseEdit()
      modifies this
      ensures !menuOpen && editDialogOpen && deleteConfirmationOpen == old(deleteConfirmationOpen)
    {
      menuOpen := false;
      editDialogOpen := true;
    }

    /** The edit dialog's `onClose`. */
    method CloseEdit()
      modifies this
      ensures !editDialogOpen && menuOpen == old(menuOpen)
      ensures deleteConfirmationOpen == old(deleteConfirmationOpen)
    {
      editDialogOpen := false;
    }

    /** Cancel in the confirmation: closes it and deletes nothing. */
    method CancelDelete() returns (actions: seq<UiAction>)
      modifies this
      ensures !deleteConfirmationOpen && menuOpen == old(menuOpen) && editDialogOpen == old(editDialogOpen)
      ensures actions == []
    {
      deleteConfirmationOpen := false;
      actions := [];
    }

    /**
     * `runDelete`, behind the confirmation's Delete button: closes the dialog,
     * deletes this food's row and then calls `onEntryUpdated`, whatever the
     * store answered. No log entry is touched by the client.
     */
    method ConfirmDelete() returns (actions: seq<UiAction>)
      modifies this
      ensures old(deleteConfirmationOpen) ==> actions == [DeleteFood(entity.id), EntryUpdated]
      ensures !old(deleteConfirmationOpen) ==> actions == []
      ensures !deleteConfirmationOpen && menuOpen == old(menuOpen) && editDialogOpen == old(editDialogOpen)
      ensures forall a :: a in actions ==> !a.DeleteLogEntry? && !a.UpdateLogEntry?
    {
      if deleteConfirmationOpen {
        deleteConfirmationOpen := false;
        actions := [DeleteFood(entity.id), EntryUpdated];
      } else {
        actions := [];
      }
    }
  }
}
