/**
 * The food-logging logic of the dashboard (app/dashboard/DashboardClient.tsx): the
 * quantity stored when a food is added, each log line shown back, the day's totals
 * against the targets, and the expected intake with its effective deficit.
 */
module Dashboard {
  import opened Wrappers
  import opened JsNumber
  import opened Foods
  import opened Recomp

  /**
   * The quantity stored for an amount typed against the selected food: a piece food
   * stores the count; another non-gram food with a truthy unit size stores grams
   * (amount times unit size); anything else stores the amount as grams.
   */
  function StoredQuantity(food: ListedFood, typed: real): (q: real)
    ensures food.unit != "piece" && food.unit != "g" && Truthy(food.unitSize) ==> q / food.unitSize.value == typed
    ensures food.unit == "piece" || food.unit == "g" || !Truthy(food.unitSize) ==> q == typed
  {
    if food.unit == "piece" then typed
    else if food.unit != "g" && Truthy(food.unitSize) then typed * food.unitSize.value
    else typed
  }

  /** The amount, unit label and nutrients one line of the day's log shows. */
  datatype EntryLine = EntryLine(amount: real, unitLabel: string, nutrients: Macros)

  /**
   * One line of the log: per-piece foods show their count and per-piece nutrients;
   * other non-gram foods with a unit size show stored grams over the unit size; the
   * rest show grams. What a line shows is exactly what that entry adds to the day's totals.
   */
  function DisplayEntry(e: ResolvedEntry): (line: EntryLine)
    ensures line.nutrients == Contribution(e)
    ensures line.unitLabel == "g" || line.unitLabel == e.food.unit
  {
    var q := e.quantity;
    assert Contribution(e) == EntryNutrients(e.food, q);
    if PieceBasis(e.food) then
      var perPiece := RatesOrZero(e.food.perPiece);
      EntryLine(q, e.food.unit,
        Macros(perPiece.calories * q, perPiece.protein * q, perPiece.carbs * q, perPiece.fats * q))
    else if e.food.unit != "g" && e.food.unit != "piece" && Truthy(e.food.unitSize) then
      var m := q / 100.0;
      assert Macros(e.food.per100g.calories * m, e.food.per100g.protein * m, e.food.per100g.carbs * m, e.food.per100g.fats * m)
          == EntryNutrients(e.food, q);
      EntryLine(q / e.food.unitSize.value, e.food.unit,
        Macros(e.food.per100g.calories * m, e.food.per100g.protein * m, e.food.per100g.carbs * m, e.food.per100g.fats * m))
    else
      var r := e.food.per100g;
      GramLine(e.food, q);
      EntryLine(q, "g", Macros(r.calories * q / 100.0, r.protein * q / 100.0, r.carbs * q / 100.0, r.fats * q / 100.0))
  }

  /** The gram line's `rate * q / 100` is the totals' `rate * (q / 100)`. */
  lemma GramLine(food: ResolvedFood, q: real)
    requires !PieceBasis(food)
    ensures var r := food.per100g;
            Macros(r.calories * q / 100.0, r.protein * q / 100.0, r.carbs * q / 100.0, r.fats * q / 100.0)
              == EntryNutrients(food, q)
  {
    var r := food.per100g;
    Per100g(r.calories, q);
    Per100g(r.protein, q);
    Per100g(r.carbs, q);
    Per100g(r.fats, q);
  }

  lemma Per100g(rate: real, q: real)
    ensures rate * q / 100.0 == rate * (q / 100.0)
  {
  }

  /**
   * The food is shown back in the unit it was entered in: a piece food with truthy
   * calories per piece, or a food with another named unit and a truthy unit size.
   */
  predicate ShownInOwnUnit(unit: string, unitSize: Option<real>, perPieceCalories: Option<real>) {
    || (unit == "piece" && Truthy(perPieceCalories))
    || (unit != "g" && unit != "piece" && unit != "" && Truthy(unitSize))
  }

  /**
   * Adding a custom food and reading the day's log back shows the amount typed, in the
   * food's unit: the id stored resolves to its name, the name to its row, and the
   * stored grams divided by the unit size give the amount again.
   */
  lemma CustomFoodRoundTrip(jsonFoods: seq<FoodRecord>, customRows: seq<CustomFoodRow>, j: nat, typed: real, entryId: string)
    requires j < |customRows|
    requires LooksLikeUuid(customRows[j].id) && customRows[j].name != ""
    requires forall k :: 0 <= k < |customRows| && k != j ==> customRows[k].id != customRows[j].id
    requires forall k :: j < k < |customRows| ==> customRows[k].name != customRows[j].name
    requires ShownInOwnUnit(customRows[j].unit, customRows[j].unitSize, customRows[j].perPiece.calories)
    ensures var row := customRows[j];
            var picked := ListCustom(row);
            var name := ResolveFoodName(picked.id, customRows);
            var foodMap := CatalogMap(jsonFoods, customRows);
            name in foodMap &&
            var line := DisplayEntry(ResolvedEntry(entryId, name, StoredQuantity(picked, typed), ResolveFood(foodMap, name)));
            line.amount == typed && line.unitLabel == row.unit
  {
    var row := customRows[j];
    var picked := ListCustom(row);
    CustomPickStoresName(customRows, j);
    var name := ResolveFoodName(picked.id, customRows);
    assert name == row.name;
    var foodMap := CatalogMap(jsonFoods, customRows);
    CustomFoodWins(jsonFoods, customRows, j);
    assert foodMap[name] == FromCustomRow(row);
    var food := ResolveFood(foodMap, name);
    assert food.unit == row.unit && food.unitSize == OrUndefined(row.unitSize);
    assert food.perPiece.calories == OrUndefined(row.perPiece.calories);
    UnitRoundTrip(picked, food, typed);
  }

  /**
   * The amount typed against a listed food comes back from the stored quantity when the
   * log's food has the same unit and, where the unit size is used, the same unit size.
   */
  lemma UnitRoundTrip(picked: ListedFood, food: ResolvedFood, typed: real)
    requires food.unit == picked.unit
    requires ShownInOwnUnit(food.unit, food.unitSize, food.perPiece.calories)
    requires food.unit != "piece" ==> food.unitSize == picked.unitSize
    ensures DisplayEntry(ResolvedEntry("", "", StoredQuantity(picked, typed), food)).amount == typed
  {
  }

  /** The same round trip for a food of foods.json that no custom food shadows. */
  lemma StaticFoodRoundTrip(jsonFoods: seq<FoodRecord>, customRows: seq<CustomFoodRow>, i: nat, typed: real, entryId: string)
    requires i < |jsonFoods|
    requires forall k :: i < k < |jsonFoods| ==> jsonFoods[k].name != jsonFoods[i].name
    requires forall k :: 0 <= k < |customRows| ==> customRows[k].name != jsonFoods[i].name && customRows[k].id != jsonFoods[i].name
    requires ShownInOwnUnit(jsonFoods[i].unit, jsonFoods[i].unitSize, OrUndefined(jsonFoods[i].perPiece.calories))
    ensures var food := jsonFoods[i];
            var picked := ListStatic(food);
            var name := ResolveFoodName(picked.id, customRows);
            var foodMap := CatalogMap(jsonFoods, customRows);
            name in foodMap &&
            var line := DisplayEntry(ResolvedEntry(entryId, name, StoredQuantity(picked, typed), ResolveFood(foodMap, name)));
            line.amount == typed && line.unitLabel == food.unit
  {
    var food := jsonFoods[i];
    var picked := ListStatic(food);
    StaticPickStoresName(food, customRows);
    var name := ResolveFoodName(picked.id, customRows);
    assert name == food.name;
    var foodMap := CatalogMap(jsonFoods, customRows);
    StaticFoodKept(jsonFoods, customRows, i);
    var resolved := ResolveFood(foodMap, name);
    assert resolved.unit == food.unit && resolved.unitSize == food.unitSize;
    assert resolved.perPiece.calories == OrUndefined(food.perPiece.calories);
    UnitRoundTrip(picked, resolved, typed);
  }

  /**
   * A piece food without a truthy calories-per-piece rate still stores the count typed,
   * but its line reads that count as grams and computes by 100 g.
   */
  lemma PieceWithoutRateReadAsGrams(e: ResolvedEntry)
    requires e.food.unit == "piece" && !Truthy(e.food.perPiece.calories)
    ensures DisplayEntry(e).amount == e.quantity && DisplayEntry(e).unitLabel == "g"
    ensures DisplayEntry(e).nutrients.calories == e.food.per100g.calories * e.quantity / 100.0
  {
  }

  /** The `{ success, error? }` answer of a server action. */
  datatype ActionResult = Succeeded | Failed(error: Option<string>)

  /** The call to addFoodEntry that a submission makes. */
  datatype AddFoodCall = AddFoodCall(foodIdOrName: string, quantity: real)

  /** The add-food form of the dashboard: the selected food, the typed amount, the status. */
  class AddFoodForm {
    var selectedFood: string
    var selectedFoodObj: Option<ListedFood>
    var quantity: Option<real>
    var loading: bool
    var error: string

    constructor ()
      ensures selectedFood == "" && selectedFoodObj.None? && quantity.None?
      ensures !loading && error == ""
    {
      selectedFood, selectedFoodObj, quantity := "", None, None;
      loading, error := false, "";
    }

    /** The form can be submitted: a food id, an amount and the food object are all set. */
    predicate Ready()
      reads this
    {
      selectedFood != "" && quantity.Some? && selectedFoodObj.Some?
    }

    /**
     * handleAddFood, with the answer of addFoodEntry as `result`: without a food or an
     * amount it only sets an error; otherwise it sends the stored quantity and, on
     * success, clears the selection, or on failure keeps it and shows the error.
     */
    method HandleAddFood(result: ActionResult) returns (call: Option<AddFoodCall>)
      modifies this
      ensures !old(Ready()) ==>
                && call.None? && error == "Please select a food and enter a quantity"
                && selectedFood == old(selectedFood) && selectedFoodObj == old(selectedFoodObj)
                && quantity == old(quantity) && loading == old(loading)
      ensures old(Ready()) ==>
                && call == Some(AddFoodCall(old(selectedFood), StoredQuantity(old(selectedFoodObj).value, old(quantity).value)))
                && !loading
      ensures old(Ready()) && result.Succeeded? ==>
                selectedFood == "" && selectedFoodObj.None? && quantity.None? && error == ""
      ensures old(Ready()) && result.Failed? ==>
                && selectedFood == old(selectedFood) && selectedFoodObj == old(selectedFoodObj) && quantity == old(quantity)
                && error == StringOr(result.error, "Failed to add food entry. Please try again.")
    {
      if !Ready() {
        error := "Please select a food and enter a quantity";
        return None;
      }
      error := "";
      loading := true;
      var quantityToStore: real;
      var food := selectedFoodObj.value;
      if food.unit == "piece" {
        quantityToStore := quantity.value;
      } else if food.unit != "g" && Truthy(food.unitSize) {
        quantityToStore := quantity.value * food.unitSize.value;
      } else {
        quantityToStore := quantity.value;
      }
      assert quantityToStore == StoredQuantity(food, quantity.value);
      call := Some(AddFoodCall(selectedFood, quantityToStore));
      match result {
        case Succeeded =>
          selectedFood := "";
          selectedFoodObj := None;
          quantity := None;
        case Failed(e) =>
          error := StringOr(e, "Failed to add food entry. Please try again.");
      }
      loading := false;
    }
  }

  /** `dailyLog?.totals`, all zeros when the day has no log. */
  function TodayTotals(dailyLog: Option<DailyLogView>): (t: Macros)
    ensures dailyLog.None? ==> t == Zero
    ensures dailyLog.Some? ==> t == dailyLog.value.totals
  {
    match dailyLog
    case None => Zero
    case Some(log) => log.totals
  }

  /** `(total / target) * 100`. */
  function Progress(total: real, target: real): (p: Num)
    ensures target != 0.0 ==> p == Finite(total / target * 100.0)
  {
    Scale(Quotient(total, target), 100.0)
  }

  /** The width of a progress bar: `Math.min(progress, 100)`. */
  function BarWidth(progress: Num): (width: Num)
    ensures progress.Finite? || progress == PosInf ==> width.Finite? && width.value <= 100.0
    ensures progress.Finite? && progress.value <= 100.0 ==> width == progress
    ensures progress == NegInf || progress == NaN ==> width == progress
  {
    Min(progress, 100.0)
  }

  /**
   * The bar never passes 100 % once there is a target; without a target it is full for
   * a positive total and NaN for a zero one.
   */
  lemma BarWidthBounds(total: real, target: real)
    ensures target != 0.0 ==> BarWidth(Progress(total, target)).Finite?
    ensures target != 0.0 ==> BarWidth(Progress(total, target)).value <= 100.0
    ensures target != 0.0 && total / target * 100.0 <= 100.0 ==>
              BarWidth(Progress(total, target)).value == total / target * 100.0
    ensures target == 0.0 && total > 0.0 ==> BarWidth(Progress(total, target)) == Finite(100.0)
    ensures target == 0.0 && total == 0.0 ==> BarWidth(Progress(total, target)) == NaN
    ensures target == 0.0 && total < 0.0 ==> BarWidth(Progress(total, target)) == NegInf
  {
  }

  /** Progress of each total against its target: calories against the macro-defined calories. */
  datatype MacroProgress = MacroProgress(calories: Num, protein: Num, carbs: Num, fats: Num)

  function DayProgress(totals: Macros, t: RecompTargets): (p: MacroProgress)
    ensures t.recompCalories != 0.0 ==> p.calories == Finite(totals.calories / t.recompCalories * 100.0)
    ensures t.protein != 0 ==> p.protein == Finite(totals.protein / t.protein as real * 100.0)
    ensures t.carbs != 0.0 ==> p.carbs == Finite(totals.carbs / t.carbs * 100.0)
    ensures t.fats != 0 ==> p.fats == Finite(totals.fats / t.fats as real * 100.0)
  {
    MacroProgress(
      Progress(totals.calories, t.recompCalories),
      Progress(totals.protein, t.protein as real),
      Progress(totals.carbs, t.carbs),
      Progress(totals.fats, t.fats as real))
  }

  /** With no log for the day, every bar is empty once its target is non-zero. */
  lemma NoLogNoProgress(t: RecompTargets)
    requires t.recompCalories != 0.0 && t.protein != 0 && t.carbs != 0.0 && t.fats != 0
    ensures DayProgress(TodayTotals(None), t) == MacroProgress(Finite(0.0), Finite(0.0), Finite(0.0), Finite(0.0))
  {
  }

  /**
   * The intake the user is expected to eat: the middle of the buffered range around
   * the macro-defined calories, rounded.
   */
  function ExpectedIntake(t: RecompTargets, cfg: RecompConfig): (r: int)
    ensures var mid := t.recompCalories + (cfg.intakeBufferMin + cfg.intakeBufferMax) / 2.0;
            mid - 0.5 < r as real <= mid + 0.5
    ensures cfg.intakeBufferMin <= cfg.intakeBufferMax ==>
              t.recompCalories + cfg.intakeBufferMin - 0.5 < r as real <= t.recompCalories + cfg.intakeBufferMax + 0.5
  {
    Round((t.recompCalories + cfg.intakeBufferMin + t.recompCalories + cfg.intakeBufferMax) / 2.0)
  }

  /**
   * Maintenance minus the expected intake: the macro-floor deficit less the middle of
   * the intake buffers, up to rounding.
   */
  function EffectiveDeficit(t: RecompTargets, cfg: RecompConfig): (d: int)
    ensures var exact := (t.maintenance as real - t.recompCalories) - (cfg.intakeBufferMin + cfg.intakeBufferMax) / 2.0;
            exact - 0.5 <= d as real < exact + 0.5
  {
    t.maintenance - ExpectedIntake(t, cfg)
  }

  /** The effective deficit as a percentage of maintenance, to two decimals. */
  function EffectiveDeficitPercent(t: RecompTargets, cfg: RecompConfig): (pct: Num)
    ensures pct.Finite? <==> t.maintenance != 0
    ensures t.maintenance != 0 ==>
              var exact := 100.0 * (EffectiveDeficit(t, cfg) as real / t.maintenance as real);
              exact - 0.005 < pct.value <= exact + 0.005
    ensures t.maintenance != 0 ==> 100.0 * pct.value == (100.0 * pct.value).Floor as real
    ensures t.maintenance == 0 ==> pct == Quotient(EffectiveDeficit(t, cfg) as real, 0.0)
  {
    RoundedPercent(EffectiveDeficit(t, cfg) as real, t.maintenance as real)
  }
}
