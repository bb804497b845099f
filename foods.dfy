/**
 * The food logic of the server actions in lib/actions/foods.ts, without the database:
 * the name-keyed lookup map over foods.json and the user's custom foods, the resolution
 * of each log entry to a food, the day's totals, the food-id heuristic of addFoodEntry
 * and the merged, name-sorted list of getAllFoods. Database rows are given as sequences.
 */
module Foods {
  import opened Wrappers
  import opened JsNumber
  import opened Indexing
  import opened NameOrder

  /** Four optional nutrient rates; `undefined` and SQL `null` are both None. */
  datatype Rates = Rates(calories: Option<real>, protein: Option<real>, carbs: Option<real>, fats: Option<real>)

  const NoRates := Rates(None, None, None, None)

  /** Calories, protein, carbs and fats. */
  datatype Macros = Macros(calories: real, protein: real, carbs: real, fats: real) {
    function Plus(other: Macros): Macros {
      Macros(calories + other.calories, protein + other.protein, carbs + other.carbs, fats + other.fats)
    }
  }

  const Zero := Macros(0.0, 0.0, 0.0, 0.0)

  /** A food as foods.json describes it; the lookup map holds values of this shape. */
  datatype FoodRecord = FoodRecord(name: string, per100g: Rates, unit: string, unitSize: Option<real>, perPiece: Rates)

  /** A row of the custom_foods table (the catalog and getAllFoods read one user's rows). */
  datatype CustomFoodRow = CustomFoodRow(id: string, name: string, per100g: Rates, unit: string, unitSize: Option<real>, perPiece: Rates)

  /** A row of the log_entries table of one day. */
  datatype LogEntryRow = LogEntryRow(id: string, foodName: string, quantity: real)

  /** `x || undefined` on each rate. */
  function TruthyRates(r: Rates): (t: Rates)
    ensures t.calories == OrUndefined(r.calories) && t.protein == OrUndefined(r.protein)
    ensures t.carbs == OrUndefined(r.carbs) && t.fats == OrUndefined(r.fats)
  {
    Rates(OrUndefined(r.calories), OrUndefined(r.protein), OrUndefined(r.carbs), OrUndefined(r.fats))
  }

  /** `x || 0` on each rate. */
  function RatesOrZero(r: Rates): Macros {
    Macros(OrZero(r.calories), OrZero(r.protein), OrZero(r.carbs), OrZero(r.fats))
  }

  /** A custom food as the lookup map stores it: every falsy number becomes `undefined`. */
  function FromCustomRow(row: CustomFoodRow): FoodRecord {
    FoodRecord(row.name, TruthyRates(row.per100g), row.unit, OrUndefined(row.unitSize), TruthyRates(row.perPiece))
  }

  function NameOf(f: FoodRecord): string {
    f.name
  }

  function CustomRecords(rows: seq<CustomFoodRow>): (records: seq<FoodRecord>)
    ensures |records| == |rows|
    ensures forall i :: 0 <= i < |rows| ==> records[i] == FromCustomRow(rows[i])
  {
    seq(|rows|, i requires 0 <= i < |rows| => FromCustomRow(rows[i]))
  }

  /** The lookup map: every food of foods.json by name, then every custom food over it. */
  function CatalogMap(jsonFoods: seq<FoodRecord>, customRows: seq<CustomFoodRow>): (foodMap: map<string, FoodRecord>)
    ensures forall n :: n in foodMap ==> foodMap[n].name == n
  {
    IndexBy(jsonFoods, NameOf) + IndexBy(CustomRecords(customRows), NameOf)
  }

  /** The two `forEach` loops that fill `foodMap`, static foods first. */
  method BuildFoodMap(jsonFoods: seq<FoodRecord>, customRows: seq<CustomFoodRow>) returns (foodMap: map<string, FoodRecord>)
    ensures foodMap == CatalogMap(jsonFoods, customRows)
  {
    foodMap := map[];
    for i := 0 to |jsonFoods|
      invariant foodMap == IndexBy(jsonFoods[..i], NameOf)
    {
      IndexByStep(jsonFoods, NameOf, i);
      foodMap := foodMap[jsonFoods[i].name := jsonFoods[i]];
    }
    assert jsonFoods[..|jsonFoods|] == jsonFoods;
    ghost var records := CustomRecords(customRows);
    for i := 0 to |customRows|
      invariant foodMap == IndexBy(jsonFoods, NameOf) + IndexBy(records[..i], NameOf)
    {
      IndexByStep(records, NameOf, i);
      UpdateOfUnion(IndexBy(jsonFoods, NameOf), IndexBy(records[..i], NameOf), customRows[i].name, records[i]);
      foodMap := foodMap[customRows[i].name := FromCustomRow(customRows[i])];
    }
    assert records[..|customRows|] == records;
  }

  /** The names the map knows: those of foods.json and those of the custom foods. */
  lemma CatalogNames(jsonFoods: seq<FoodRecord>, customRows: seq<CustomFoodRow>, name: string)
    ensures (name in CatalogMap(jsonFoods, customRows)) <==>
              ((exists i :: 0 <= i < |jsonFoods| && jsonFoods[i].name == name)
               || (exists i :: 0 <= i < |customRows| && customRows[i].name == name))
  {
    var records := CustomRecords(customRows);
    KeyAtSomePosition(jsonFoods, NameOf, name);
    KeyAtSomePosition(records, NameOf, name);
    if exists i :: 0 <= i < |customRows| && customRows[i].name == name {
      var i :| 0 <= i < |customRows| && customRows[i].name == name;
      assert NameOf(records[i]) == name;
    }
    if exists i :: 0 <= i < |records| && NameOf(records[i]) == name {
      var i :| 0 <= i < |records| && NameOf(records[i]) == name;
      assert customRows[i].name == name;
    }
  }

  /** On a name collision the custom food wins; among custom foods, the last one. */
  lemma CustomFoodWins(jsonFoods: seq<FoodRecord>, customRows: seq<CustomFoodRow>, i: nat)
    requires i < |customRows|
    requires forall j :: i < j < |customRows| ==> customRows[j].name != customRows[i].name
    ensures customRows[i].name in CatalogMap(jsonFoods, customRows)
    ensures CatalogMap(jsonFoods, customRows)[customRows[i].name] == FromCustomRow(customRows[i])
  {
    var records := CustomRecords(customRows);
    assert records[i] in records;
    IndexByLastWins(records, NameOf, i);
  }

  /** A name no custom food has maps to the last food of foods.json with that name. */
  lemma StaticFoodKept(jsonFoods: seq<FoodRecord>, customRows: seq<CustomFoodRow>, i: nat)
    requires i < |jsonFoods|
    requires forall j :: i < j < |jsonFoods| ==> jsonFoods[j].name != jsonFoods[i].name
    requires forall j :: 0 <= j < |customRows| ==> customRows[j].name != jsonFoods[i].name
    ensures jsonFoods[i].name in CatalogMap(jsonFoods, customRows)
    ensures CatalogMap(jsonFoods, customRows)[jsonFoods[i].name] == jsonFoods[i]
  {
    assert jsonFoods[i] in jsonFoods;
    IndexByLastWins(jsonFoods, NameOf, i);
    CatalogNames([], customRows, jsonFoods[i].name);
  }

  /** A food of a log entry, with the defaults the entry resolution fills in. */
  datatype ResolvedFood = ResolvedFood(name: string, per100g: Macros, unit: string, unitSize: Option<real>, perPiece: Rates)

  /** An entry of the day's log as getDailyLog returns it. */
  datatype ResolvedEntry = ResolvedEntry(id: string, foodId: string, quantity: real, food: ResolvedFood)

  /** The stand-in for a food that is in neither source: zero rates, counted in grams. */
  function MissingFood(name: string): ResolvedFood {
    ResolvedFood(name, Zero, "g", None, NoRates)
  }

  /**
   * The food an entry's name resolves to: the map's food with absent per-100g rates as
   * 0, an empty unit as 'g' and falsy per-piece rates absent; or the stand-in.
   */
  function ResolveFood(foodMap: map<string, FoodRecord>, foodName: string): (f: ResolvedFood)
    requires forall n :: n in foodMap ==> foodMap[n].name == n
    ensures f.name == foodName && f.unit != ""
    ensures foodName in foodMap ==> f.per100g == RatesOrZero(foodMap[foodName].per100g)
    ensures foodName in foodMap ==> f.unitSize == foodMap[foodName].unitSize
    ensures foodName in foodMap && foodMap[foodName].unit != "" ==> f.unit == foodMap[foodName].unit
    ensures foodName in foodMap && foodMap[foodName].unit == "" ==> f.unit == "g"
    ensures foodName in foodMap ==> f.perPiece == TruthyRates(foodMap[foodName].perPiece)
    ensures foodName !in foodMap ==> f == MissingFood(foodName)
  {
    if foodName !in foodMap then MissingFood(foodName)
    else
      var food := foodMap[foodName];
      ResolvedFood(
        food.name,
        RatesOrZero(food.per100g),
        if food.unit == "" then "g" else food.unit,
        food.unitSize,
        TruthyRates(food.perPiece))
  }

  /** An entry keeps its row's id, name and quantity, and carries the food its name resolves to. */
  function ResolveEntry(foodMap: map<string, FoodRecord>, row: LogEntryRow): (e: ResolvedEntry)
    requires forall n :: n in foodMap ==> foodMap[n].name == n
    ensures e.id == row.id && e.foodId == row.foodName && e.quantity == row.quantity
    ensures e.food.name == row.foodName
    ensures row.foodName !in foodMap ==> e.food == MissingFood(row.foodName)
  {
    ResolvedEntry(row.id, row.foodName, row.quantity, ResolveFood(foodMap, row.foodName))
  }

  function ResolveEntries(foodMap: map<string, FoodRecord>, rows: seq<LogEntryRow>): (entries: seq<ResolvedEntry>)
    requires forall n :: n in foodMap ==> foodMap[n].name == n
    ensures |entries| == |rows|
    ensures forall i :: 0 <= i < |rows| ==> entries[i] == ResolveEntry(foodMap, rows[i])
  {
    seq(|rows|, i requires 0 <= i < |rows| => ResolveEntry(foodMap, rows[i]))
  }

  /** The entry is counted in pieces: unit 'piece' and a truthy calories-per-piece rate. */
  predicate PieceBasis(food: ResolvedFood) {
    food.unit == "piece" && Truthy(food.perPiece.calories)
  }

  /**
   * What one entry adds to the totals: per-piece rates (absent ones as 0) times the
   * piece count, or per-100g rates times quantity / 100. The unit size plays no part.
   */
  function EntryNutrients(food: ResolvedFood, quantity: real): (n: Macros)
    ensures quantity == 0.0 ==> n == Zero
    ensures PieceBasis(food) ==> n.calories == food.perPiece.calories.value * quantity
    ensures !PieceBasis(food) ==> n.calories == food.per100g.calories * quantity / 100.0
  {
    if PieceBasis(food) then
      var perPiece := RatesOrZero(food.perPiece);
      Macros(perPiece.calories * quantity, perPiece.protein * quantity, perPiece.carbs * quantity, perPiece.fats * quantity)
    else
      var multiplier := quantity / 100.0;
      Macros(food.per100g.calories * multiplier, food.per100g.protein * multiplier,
             food.per100g.carbs * multiplier, food.per100g.fats * multiplier)
  }

  function Contribution(e: ResolvedEntry): Macros {
    EntryNutrients(e.food, e.quantity)
  }

  /** The `reduce` over the entries, from all zeros, in list order. */
  function FoldTotals(entries: seq<ResolvedEntry>): (totals: Macros)
    ensures (forall i :: 0 <= i < |entries| ==> entries[i].quantity == 0.0) ==> totals == Zero
    decreases |entries|
  {
    if entries == [] then Zero
    else FoldTotals(entries[..|entries| - 1]).Plus(Contribution(entries[|entries| - 1]))
  }

  /** The fold over two lists laid end to end is the sum of the two folds. */
  lemma {:induction false} FoldAppend(a: seq<ResolvedEntry>, b: seq<ResolvedEntry>)
    ensures FoldTotals(a + b) == FoldTotals(a).Plus(FoldTotals(b))
    decreases |b|
  {
    if b == [] {
      assert a + b == a;
    } else {
      var init := b[..|b| - 1];
      assert (a + b)[..|a + b| - 1] == a + init;
      assert (a + b)[|a + b| - 1] == b[|b| - 1];
      FoldAppend(a, init);
    }
  }

  /**
   * In two lists holding the same elements, the last element of the first sits at some
   * position of the second, and the rest of both still hold the same elements.
   */
  lemma MatchLast<T>(a: seq<T>, b: seq<T>) returns (i: nat)
    requires a != [] && multiset(a) == multiset(b)
    ensures i < |b| && b[i] == a[|a| - 1]
    ensures a == a[..|a| - 1] + [a[|a| - 1]]
    ensures b == b[..i] + [b[i]] + b[i + 1..]
    ensures multiset(a[..|a| - 1]) == multiset(b[..i] + b[i + 1..])
  {
    var last := a[|a| - 1];
    var init := a[..|a| - 1];
    assert a == init + [last];
    assert last in multiset(b);
    i :| 0 <= i < |b| && b[i] == last;
    var before, after := b[..i], b[i + 1..];
    assert b == before + [last] + after;
    assert multiset(a) == multiset(init) + multiset{last};
    assert multiset(b) == multiset(before + after) + multiset{last} by {
      assert multiset(b) == multiset(before) + multiset{last} + multiset(after);
    }
    AddCancel(multiset(init), multiset(before + after), last);
  }

  /** Adding the same element to two multisets cancels. */
  lemma AddCancel<T>(x: multiset<T>, y: multiset<T>, e: T)
    requires x + multiset{e} == y + multiset{e}
    ensures x == y
  {
    forall z
      ensures x[z] == y[z]
    {
      assert (x + multiset{e})[z] == (y + multiset{e})[z];
    }
  }

  /** The totals do not depend on the order of the entries. */
  lemma {:induction false} FoldPermutation(a: seq<ResolvedEntry>, b: seq<ResolvedEntry>)
    requires multiset(a) == multiset(b)
    ensures FoldTotals(a) == FoldTotals(b)
    decreases |a|
  {
    if a != [] {
      var last := a[|a| - 1];
      var init := a[..|a| - 1];
      var i := MatchLast(a, b);
      var before, after := b[..i], b[i + 1..];
      var c := Contribution(last);
      assert FoldTotals(a) == FoldTotals(init).Plus(c);
      FoldPermutation(init, before + after);
      FoldAppend(before, after);
      FoldAppend(before + [last], after);
      FoldAppend(before, [last]);
      assert FoldTotals([last]) == Zero.Plus(c);
      PlusSwap(FoldTotals(before), FoldTotals(after), c);
    }
  }

  /** Sums of totals can be taken in any order. */
  lemma PlusSwap(x: Macros, y: Macros, z: Macros)
    ensures x.Plus(y).Plus(z) == x.Plus(Zero.Plus(z)).Plus(y)
  {
  }

  /** An entry whose food is in neither source adds nothing, and the fold goes on. */
  lemma MissingFoodAddsNothing(foodMap: map<string, FoodRecord>, before: seq<ResolvedEntry>, row: LogEntryRow)
    requires forall n :: n in foodMap ==> foodMap[n].name == n
    requires row.foodName !in foodMap
    ensures Contribution(ResolveEntry(foodMap, row)) == Zero
    ensures FoldTotals(before + [ResolveEntry(foodMap, row)]) == FoldTotals(before)
  {
    var e := ResolveEntry(foodMap, row);
    assert (before + [e])[..|before|] == before;
  }

  /**
   * The two branches of the per-entry computation: a piece food with truthy
   * calories-per-piece multiplies its per-piece rates (missing ones as 0) by the count;
   * everything else, a piece food without that rate included, goes by 100 g, and
   * whatever unit size the food has does not change the result.
   */
  lemma EntryNutrientsBranches(food: ResolvedFood, quantity: real, size: Option<real>)
    ensures PieceBasis(food) ==>
              EntryNutrients(food, quantity) == Macros(
                food.perPiece.calories.value * quantity, OrZero(food.perPiece.protein) * quantity,
                OrZero(food.perPiece.carbs) * quantity, OrZero(food.perPiece.fats) * quantity)
    ensures !PieceBasis(food) ==>
              EntryNutrients(food, quantity) == Macros(
                food.per100g.calories * quantity / 100.0, food.per100g.protein * quantity / 100.0,
                food.per100g.carbs * quantity / 100.0, food.per100g.fats * quantity / 100.0)
    ensures EntryNutrients(food.(unitSize := size), quantity) == EntryNutrients(food, quantity)
  {
  }

  /** Each total rounded to the nearest integer, halves up, once, after summing. */
  function RoundTotals(m: Macros): (r: Macros)
    ensures m.calories - 0.5 < r.calories <= m.calories + 0.5 && r.calories == r.calories.Floor as real
    ensures m.protein - 0.5 < r.protein <= m.protein + 0.5 && r.protein == r.protein.Floor as real
    ensures m.carbs - 0.5 < r.carbs <= m.carbs + 0.5 && r.carbs == r.carbs.Floor as real
    ensures m.fats - 0.5 < r.fats <= m.fats + 0.5 && r.fats == r.fats.Floor as real
  {
    Macros(Round(m.calories) as real, Round(m.protein) as real, Round(m.carbs) as real, Round(m.fats) as real)
  }

  /** What getDailyLog returns for a day that has a log. */
  datatype DailyLogView = DailyLogView(entries: seq<ResolvedEntry>, totals: Macros)

  /**
   * getDailyLog: nothing without a daily_logs row for the day; otherwise each entry
   * resolved against the merged catalog, and the rounded totals.
   */
  function GetDailyLog(dayEntries: Option<seq<LogEntryRow>>, jsonFoods: seq<FoodRecord>, customRows: seq<CustomFoodRow>): (r: Option<DailyLogView>)
    ensures r.Some? <==> dayEntries.Some?
    ensures r.Some? ==> |r.value.entries| == |dayEntries.value|
    ensures r.Some? ==> forall i :: 0 <= i < |dayEntries.value| ==>
              && r.value.entries[i].id == dayEntries.value[i].id
              && r.value.entries[i].foodId == dayEntries.value[i].foodName
              && r.value.entries[i].quantity == dayEntries.value[i].quantity
              && r.value.entries[i].food.name == dayEntries.value[i].foodName
    ensures r.Some? ==> forall i :: 0 <= i < |dayEntries.value| ==>
              r.value.entries[i] == ResolveEntry(CatalogMap(jsonFoods, customRows), dayEntries.value[i])
    ensures r.Some? ==> r.value.totals == RoundTotals(FoldTotals(r.value.entries))
    ensures dayEntries == Some([]) ==> r == Some(DailyLogView([], Zero))
  {
    match dayEntries
    case None => None
    case Some(rows) =>
      var entries := ResolveEntries(CatalogMap(jsonFoods, customRows), rows);
      assert rows == [] ==> RoundTotals(FoldTotals(entries)) == Zero by {
        if rows == [] { assert Round(0.0) == 0; }
      }
      Some(DailyLogView(entries, RoundTotals(FoldTotals(entries))))
  }

  /** Resolving each element of a rearranged list gives a rearranged list. */
  lemma {:induction false} ResolvePermutation(foodMap: map<string, FoodRecord>, a: seq<LogEntryRow>, b: seq<LogEntryRow>)
    requires forall n :: n in foodMap ==> foodMap[n].name == n
    requires multiset(a) == multiset(b)
    ensures multiset(ResolveEntries(foodMap, a)) == multiset(ResolveEntries(foodMap, b))
    decreases |a|
  {
    if a != [] {
      var last := a[|a| - 1];
      var init := a[..|a| - 1];
      var i := MatchLast(a, b);
      var before, after := b[..i], b[i + 1..];
      ResolvePermutation(foodMap, init, before + after);
      ResolveStep(foodMap, init, last, before, after);
    }
  }

  /** One step of the induction: the same row added to both lists. */
  lemma ResolveStep(foodMap: map<string, FoodRecord>, init: seq<LogEntryRow>, last: LogEntryRow,
                    before: seq<LogEntryRow>, after: seq<LogEntryRow>)
    requires forall n :: n in foodMap ==> foodMap[n].name == n
    requires multiset(ResolveEntries(foodMap, init)) == multiset(ResolveEntries(foodMap, before + after))
    ensures multiset(ResolveEntries(foodMap, init + [last]))
         == multiset(ResolveEntries(foodMap, before + [last] + after))
  {
    var ri, rb, ra := ResolveEntries(foodMap, init), ResolveEntries(foodMap, before), ResolveEntries(foodMap, after);
    var e := ResolveEntry(foodMap, last);
    ResolveEntriesAppend(foodMap, init, [last]);
    assert ResolveEntries(foodMap, init + [last]) == ri + [e];
    ResolveAround(foodMap, before, last, after);
    MultisetInsert(ri, e, rb, ra);
  }

  /** Adding the same element to two rearrangements of each other keeps them so. */
  lemma MultisetInsert<T>(x: seq<T>, e: T, p: seq<T>, q: seq<T>)
    requires multiset(x) == multiset(p + q)
    ensures multiset(x + [e]) == multiset(p + [e] + q)
  {
  }

  /** Resolving a list with one element singled out, and the list without it. */
  lemma ResolveAround(foodMap: map<string, FoodRecord>, before: seq<LogEntryRow>, x: LogEntryRow, after: seq<LogEntryRow>)
    requires forall n :: n in foodMap ==> foodMap[n].name == n
    ensures ResolveEntries(foodMap, before + [x] + after)
         == ResolveEntries(foodMap, before) + [ResolveEntry(foodMap, x)] + ResolveEntries(foodMap, after)
    ensures ResolveEntries(foodMap, before + after) == ResolveEntries(foodMap, before) + ResolveEntries(foodMap, after)
  {
    ResolveEntriesAppend(foodMap, before + [x], after);
    ResolveEntriesAppend(foodMap, before, [x]);
    ResolveEntriesAppend(foodMap, before, after);
  }

  lemma ResolveEntriesAppend(foodMap: map<string, FoodRecord>, x: seq<LogEntryRow>, y: seq<LogEntryRow>)
    requires forall n :: n in foodMap ==> foodMap[n].name == n
    ensures ResolveEntries(foodMap, x + y) == ResolveEntries(foodMap, x) + ResolveEntries(foodMap, y)
  {
  }

  /** The day's totals are the same whatever order the database returns its entries in. */
  lemma TotalsIgnoreEntryOrder(a: seq<LogEntryRow>, b: seq<LogEntryRow>, jsonFoods: seq<FoodRecord>, customRows: seq<CustomFoodRow>)
    requires multiset(a) == multiset(b)
    ensures GetDailyLog(Some(a), jsonFoods, customRows).value.totals
         == GetDailyLog(Some(b), jsonFoods, customRows).value.totals
  {
    var foodMap := CatalogMap(jsonFoods, customRows);
    ResolvePermutation(foodMap, a, b);
    FoldPermutation(ResolveEntries(foodMap, a), ResolveEntries(foodMap, b));
  }

  /** An id is taken for a custom food's UUID when it has a '-' and more than 20 characters. */
  predicate LooksLikeUuid(id: string) {
    '-' in id && |id| > 20
  }

  /**
   * The name of the first custom food with this id (the id is the table's primary key);
   * the lookup is by id alone, so `customRows` is the whole table, every user's rows.
   */
  function FindCustomName(id: string, customRows: seq<CustomFoodRow>): (r: Option<string>)
    ensures r.None? <==> forall k :: 0 <= k < |customRows| ==> customRows[k].id != id
    ensures r.Some? ==> exists k :: 0 <= k < |customRows| && customRows[k].id == id && customRows[k].name == r.value
    decreases |customRows|
  {
    if customRows == [] then None
    else if customRows[0].id == id then Some(customRows[0].name)
    else
      var r := FindCustomName(id, customRows[1..]);
      assert r.Some? ==> exists k :: 0 <= k < |customRows| && customRows[k].id == id && customRows[k].name == r.value by {
        if r.Some? {
          var k :| 0 <= k < |customRows[1..]| && customRows[1..][k].id == id && customRows[1..][k].name == r.value;
          assert customRows[k + 1] == customRows[1..][k];
        }
      }
      r
  }

  /**
   * The food name addFoodEntry stores for an id: a UUID-looking id is looked up among
   * the custom foods, falling back to the id itself when the lookup finds nothing or an
   * empty name; any other id is stored verbatim.
   */
  function ResolveFoodName(foodIdOrName: string, customRows: seq<CustomFoodRow>): (name: string)
    ensures !LooksLikeUuid(foodIdOrName) ==> name == foodIdOrName
    ensures name != foodIdOrName ==>
              LooksLikeUuid(foodIdOrName) && name != "" &&
              exists k :: 0 <= k < |customRows| && customRows[k].id == foodIdOrName && customRows[k].name == name
    ensures (forall k :: 0 <= k < |customRows| ==> customRows[k].id != foodIdOrName) ==> name == foodIdOrName
  {
    if LooksLikeUuid(foodIdOrName) then
      match FindCustomName(foodIdOrName, customRows)
      case Some(n) => if n != "" then n else foodIdOrName
      case None => foodIdOrName
    else
      foodIdOrName
  }

  /** A food of the list that getAllFoods returns. */
  datatype ListedFood = ListedFood(
    id: string, name: string, per100g: Macros, unit: string, unitSize: Option<real>, perPiece: Rates, isCustom: bool)

  function ListedName(f: ListedFood): string {
    f.name
  }

  /** A food of foods.json in the list: its name is its id. */
  function ListStatic(f: FoodRecord): ListedFood {
    ListedFood(f.name, f.name, RatesOrZero(f.per100g), f.unit, f.unitSize, f.perPiece, false)
  }

  /** A custom food in the list: its database id, marked custom. */
  function ListCustom(row: CustomFoodRow): ListedFood {
    ListedFood(row.id, row.name, RatesOrZero(row.per100g), row.unit, row.unitSize, row.perPiece, true)
  }

  /** The static foods, then the custom foods, before sorting. */
  function MergedFoods(jsonFoods: seq<FoodRecord>, customRows: seq<CustomFoodRow>): (merged: seq<ListedFood>)
    ensures |merged| == |jsonFoods| + |customRows|
    ensures forall i :: 0 <= i < |jsonFoods| ==> merged[i] == ListStatic(jsonFoods[i])
    ensures forall i :: 0 <= i < |customRows| ==> merged[|jsonFoods| + i] == ListCustom(customRows[i])
  {
    seq(|jsonFoods|, i requires 0 <= i < |jsonFoods| => ListStatic(jsonFoods[i]))
    + seq(|customRows|, i requires 0 <= i < |customRows| => ListCustom(customRows[i]))
  }

  /**
   * getAllFoods: both sources, nothing dropped and nothing merged away, sorted by name;
   * a static food's id is its name, a custom food's id is its row id.
   */
  function GetAllFoods(jsonFoods: seq<FoodRecord>, customRows: seq<CustomFoodRow>): (foods: seq<ListedFood>)
    ensures multiset(foods) == multiset(MergedFoods(jsonFoods, customRows))
    ensures |foods| == |jsonFoods| + |customRows|
    ensures SortedBy(foods, ListedName)
    ensures forall k :: 0 <= k < |foods| && !foods[k].isCustom ==> foods[k].id == foods[k].name
    ensures forall k :: 0 <= k < |foods| && foods[k].isCustom ==>
              exists j :: 0 <= j < |customRows| && foods[k] == ListCustom(customRows[j])
  {
    var merged := MergedFoods(jsonFoods, customRows);
    var foods := SortByName(merged, ListedName);
    assert |foods| == |merged| by {
      assert |multiset(foods)| == |multiset(merged)|;
    }
    forall k | 0 <= k < |foods|
      ensures !foods[k].isCustom ==> foods[k].id == foods[k].name
      ensures foods[k].isCustom ==> exists j :: 0 <= j < |customRows| && foods[k] == ListCustom(customRows[j])
    {
      assert foods[k] in multiset(merged);
      var i :| 0 <= i < |merged| && merged[i] == foods[k];
      if i >= |jsonFoods| {
        assert foods[k] == ListCustom(customRows[i - |jsonFoods|]);
      }
    }
    foods
  }

  /**
   * Picking a custom food from the list stores its name: its id is a UUID that only
   * its own row carries.
   */
  lemma CustomPickStoresName(customRows: seq<CustomFoodRow>, j: nat)
    requires j < |customRows|
    requires LooksLikeUuid(customRows[j].id) && customRows[j].name != ""
    requires forall k :: 0 <= k < |customRows| && k != j ==> customRows[k].id != customRows[j].id
    ensures ResolveFoodName(ListCustom(customRows[j]).id, customRows) == customRows[j].name
  {
  }

  /**
   * Picking a static food from the list stores its name, as long as no custom food's id
   * happens to equal that name.
   */
  lemma StaticPickStoresName(f: FoodRecord, customRows: seq<CustomFoodRow>)
    requires forall k :: 0 <= k < |customRows| ==> customRows[k].id != f.name
    ensures ResolveFoodName(ListStatic(f).id, customRows) == f.name
  {
  }
}
