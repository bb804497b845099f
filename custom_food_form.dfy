/**
 * The add-custom-food dialog (components/dashboard/AddCustomFoodModal.tsx): the two
 * entry modes (per piece, per 100 g), the fields each requires, the payload each sends
 * to addCustomFood, and what the form keeps or resets afterwards. Number fields are
 * None when blank: a number input holds either a valid number or nothing.
 */
module CustomFoodForm {
  import opened Wrappers
  import opened Foods

  /** The units the unit select offers. */
  datatype Unit = Grams | Piece | Teaspoon | Tablespoon | Slice

  /** The value the unit select stores. */
  function UnitName(u: Unit): (s: string)
    ensures s != ""
    ensures s == "g" <==> u == Grams
    ensures s == "piece" <==> u == Piece
  {
    match u
    case Grams => "g"
    case Piece => "piece"
    case Teaspoon => "tsp"
    case Tablespoon => "tbsp"
    case Slice => "slice"
  }

  /** The state of the dialog's fields. */
  datatype FormData = FormData(
    name: string,
    unit: Unit,
    caloriesPer100g: Option<real>,
    proteinPer100g: Option<real>,
    carbsPer100g: Option<real>,
    fatsPer100g: Option<real>,
    unitSize: Option<real>,
    caloriesPerPiece: Option<real>,
    proteinPerPiece: Option<real>,
    carbsPerPiece: Option<real>,
    fatsPerPiece: Option<real>,
    notes: string)

  /** Every field blank, the unit back to grams. */
  const BlankForm := FormData("", Grams, None, None, None, None, None, None, None, None, None, "")

  /** The data handed to addCustomFood; absent fields are `undefined`. */
  datatype CustomFoodPayload = CustomFoodPayload(
    name: string,
    unit: string,
    per100g: Rates,
    unitSize: Option<real>,
    perPiece: Rates,
    notes: Option<string>)

  const PerPieceMissing := "Please fill in name, calories per piece, and protein per piece"
  const Per100gMissing := "Please fill in name, calories per 100g, and protein per 100g"

  /**
   * The validation of a submission: per piece needs a name, calories per piece and
   * protein per piece; per 100 g needs a name, calories per 100 g and protein per 100 g.
   */
  function Validate(usePerPiece: bool, form: FormData): (err: Option<string>)
    ensures usePerPiece ==>
              (err.None? <==> form.name != "" && form.caloriesPerPiece.Some? && form.proteinPerPiece.Some?)
    ensures !usePerPiece ==>
              (err.None? <==> form.name != "" && form.caloriesPer100g.Some? && form.proteinPer100g.Some?)
    ensures err.Some? ==> err.value == if usePerPiece then PerPieceMissing else Per100gMissing
  {
    if usePerPiece then
      if form.name == "" || form.caloriesPerPiece.None? || form.proteinPerPiece.None? then Some(PerPieceMissing) else None
    else
      if form.name == "" || form.caloriesPer100g.None? || form.proteinPer100g.None? then Some(Per100gMissing) else None
  }

  /** `notes || undefined`. */
  function NotesOf(form: FormData): Option<string> {
    if form.notes == "" then None else Some(form.notes)
  }

  /**
   * The payload of a valid submission. Per piece: the per-piece rates, blank carbs and
   * fats as 0, and neither per-100g rates nor a unit size. Per 100 g: the per-100g rates,
   * blank carbs and fats as 0, the unit size when one is filled in, no per-piece rates.
   */
  function BuildPayload(usePerPiece: bool, form: FormData): (p: CustomFoodPayload)
    requires Validate(usePerPiece, form).None?
    ensures p.name == form.name && p.name != "" && p.unit == UnitName(form.unit)
    ensures usePerPiece ==>
              && p.per100g == NoRates && p.unitSize.None?
              && p.perPiece == Rates(form.caloriesPerPiece, form.proteinPerPiece,
                                     Some(form.carbsPerPiece.GetOr(0.0)), Some(form.fatsPerPiece.GetOr(0.0)))
    ensures !usePerPiece ==>
              && p.perPiece == NoRates && p.unitSize == form.unitSize
              && p.per100g == Rates(form.caloriesPer100g, form.proteinPer100g,
                                    Some(form.carbsPer100g.GetOr(0.0)), Some(form.fatsPer100g.GetOr(0.0)))
    ensures p.notes.Some? <==> form.notes != ""
  {
    if usePerPiece then
      CustomFoodPayload(
        form.name, UnitName(form.unit), NoRates, None,
        Rates(Some(form.caloriesPerPiece.value), Some(form.proteinPerPiece.value),
              Some(form.carbsPerPiece.GetOr(0.0)), Some(form.fatsPerPiece.GetOr(0.0))),
        NotesOf(form))
    else
      CustomFoodPayload(
        form.name, UnitName(form.unit),
        Rates(Some(form.caloriesPer100g.value), Some(form.proteinPer100g.value),
              Some(form.carbsPer100g.GetOr(0.0)), Some(form.fatsPer100g.GetOr(0.0))),
        form.unitSize, NoRates, NotesOf(form))
  }

  /** The custom_foods row the insert of a payload creates, under the id it is given. */
  function InsertedRow(id: string, p: CustomFoodPayload): CustomFoodRow {
    CustomFoodRow(id, p.name, p.per100g, p.unit, p.unitSize, p.perPiece)
  }

  /**
   * How a food created per piece is counted in a day's totals: with the unit 'piece'
   * and non-zero calories per piece, each piece adds the per-piece rates; with any other
   * unit (the select starts at 'g') the food has no per-100g rates and adds nothing.
   */
  lemma PerPieceFoodCounting(form: FormData, id: string, quantity: real)
    requires Validate(true, form).None?
    ensures var food := ResolveFood(CatalogMap([], [InsertedRow(id, BuildPayload(true, form))]), form.name);
            form.unit == Piece && form.caloriesPerPiece.value != 0.0 ==>
              EntryNutrients(food, quantity).calories == form.caloriesPerPiece.value * quantity
    ensures var food := ResolveFood(CatalogMap([], [InsertedRow(id, BuildPayload(true, form))]), form.name);
            form.unit != Piece ==> EntryNutrients(food, quantity) == Zero
  {
    var payload := BuildPayload(true, form);
    var row := InsertedRow(id, payload);
    var m := CatalogMap([], [row]);
    CustomFoodWins([], [row], 0);
    assert m[form.name] == FromCustomRow(row);
    var food := ResolveFood(m, form.name);
    assert food.per100g == Zero;
    assert food.unit == UnitName(form.unit);
    assert food.perPiece == TruthyRates(payload.perPiece);
    if form.unit == Piece && form.caloriesPerPiece.value != 0.0 {
      assert food.perPiece.calories == Some(form.caloriesPerPiece.value);
      assert PieceBasis(food);
    }
    if form.unit != Piece {
      assert !PieceBasis(food);
    }
  }

  /** The answer of addCustomFood. */
  datatype AddResult = Added(foodId: Option<string>, foodName: Option<string>) | NotAdded(error: Option<string>)

  /** The arguments of the `onFoodAdded` callback. */
  datatype FoodAdded = FoodAdded(foodId: string, foodName: string)

  /** The dialog's state. */
  class CustomFoodModal {
    var form: FormData
    var usePerPiece: bool
    var error: string
    var loading: bool

    constructor ()
      ensures form == BlankForm && !usePerPiece && error == "" && !loading
    {
      form, usePerPiece, error, loading := BlankForm, false, "", false;
    }

    /**
     * handleSubmit, with the answer of addCustomFood as `result`: an invalid form only
     * sets the mode's error; a valid one sends the mode's payload, then on success
     * reports the new food and resets the form, or on failure keeps it and shows the
     * error. Loading ends in every case.
     */
    method HandleSubmit(result: AddResult) returns (call: Option<CustomFoodPayload>, added: Option<FoodAdded>)
      modifies this
      ensures !loading
      ensures Validate(old(usePerPiece), old(form)).Some? ==>
                && call.None? && added.None?
                && error == Validate(old(usePerPiece), old(form)).value
                && form == old(form) && usePerPiece == old(usePerPiece)
      ensures Validate(old(usePerPiece), old(form)).None? ==>
                call == Some(BuildPayload(old(usePerPiece), old(form)))
      ensures Validate(old(usePerPiece), old(form)).None? && result.Added? ==>
                && added == Some(FoodAdded(StringOr(result.foodId, ""), StringOr(result.foodName, old(form).name)))
                && form == BlankForm && !usePerPiece && error == ""
      ensures Validate(old(usePerPiece), old(form)).None? && result.NotAdded? ==>
                && added.None? && error == StringOr(result.error, "Failed to add food")
                && form == old(form) && usePerPiece == old(usePerPiece)
    {
      error := "";
      loading := true;
      added := None;
      var invalid := Validate(usePerPiece, form);
      if invalid.Some? {
        error := invalid.value;
        loading := false;
        return None, None;
      }
      var payload := BuildPayload(usePerPiece, form);
      call := Some(payload);
      match result {
        case Added(foodId, foodName) =>
          added := Some(FoodAdded(StringOr(foodId, ""), StringOr(foodName, form.name)));
          form := BlankForm;
          usePerPiece := false;
        case NotAdded(e) =>
          error := StringOr(e, "Failed to add food");
      }
      loading := false;
    }
  }
}
