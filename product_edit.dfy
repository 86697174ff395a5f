/**
 * The product edit page of scripts/product_edit.ts: units and ingredients
 * are records keyed by id, usages are shown with their unit, ingredient and
 * display amount, and two derived values (the cost of a new ingredient and
 * the product's cost) are computed from the page state. The unit list
 * offered for a usage is `Client.FamilyOf`; the start/cancel/remove
 * helpers are `Editing.EditingHelpers` over the page's usages.
 */
module ProductEdit {
  import opened Types
  import opened GoUtils
  import opened Client

  /**
   * `getSafeUnitIdFromIngredient`: the unit of the ingredient's newest price,
   * if it has one. The price list is read without a guard, so an ingredient
   * whose list is null throws.
   */
  function SafeUnitId(ingredients: map<int, IngredientView>, ingredientId: int): (r: Result<Option<int>>)
    ensures r.Err? <==> ingredientId in ingredients && ingredients[ingredientId].prices.None?
    ensures r.Err? ==> r.error == NilDereference
    ensures r == Ok(None) <==> ingredientId !in ingredients || ingredients[ingredientId].prices == Some([])
    ensures r.Ok? && r.value.Some? ==> r.value.value == ingredients[ingredientId].prices.value[0].unitId
  {
    if ingredientId !in ingredients then Ok(None)
    else match ingredients[ingredientId].prices
      case None => Err(NilDereference)
      case Some(prices) => if |prices| == 0 then Ok(None) else Ok(Some(prices[0].unitId))
  }

  /**
   * `newIngredientCost`, before `toFixed(2)` formats it: zero when the
   * ingredient or the unit is unknown, the amount is not a number, or the
   * ingredient has no price; otherwise the newest price times the amount in
   * base units. The price list is read only after the other checks, without
   * a guard, so a null list throws there.
   */
  function NewIngredientCost(
    ingredients: map<int, IngredientView>, units: map<int, Unit>, ingredientId: int, unitId: int, amount: Option<real>): (r: Result<real>)
    requires FactorsPositive(units)
  {
    if ingredientId !in ingredients || unitId !in units || amount.None? then Ok(0.0)
    else match ingredients[ingredientId].prices
      case None => Err(NilDereference)
      case Some(prices) => if |prices| == 0 then Ok(0.0) else Ok(prices[0].price * amount.value / units[unitId].factor)
  }

  /**
   * The new ingredient's cost is zero on a missing input, throws on a null
   * price list of a known ingredient with known unit and amount, and
   * otherwise, converted back by the unit's factor, is price times amount.
   */
  lemma NewIngredientCostScales(
    ingredients: map<int, IngredientView>, units: map<int, Unit>, ingredientId: int, unitId: int, amount: Option<real>)
    requires FactorsPositive(units)
    ensures NewIngredientCost(ingredients, units, ingredientId, unitId, amount).Err? <==>
              ingredientId in ingredients && unitId in units && amount.Some? && ingredients[ingredientId].prices.None?
    ensures NewIngredientCost(ingredients, units, ingredientId, unitId, amount).Err? ==>
              NewIngredientCost(ingredients, units, ingredientId, unitId, amount).error == NilDereference
    ensures ingredientId !in ingredients || unitId !in units || amount.None? ||
            ingredients[ingredientId].prices == Some([]) ==>
              NewIngredientCost(ingredients, units, ingredientId, unitId, amount) == Ok(0.0)
    ensures ingredientId in ingredients && unitId in units && amount.Some? && |PricesOf(ingredients[ingredientId])| > 0 ==>
              NewIngredientCost(ingredients, units, ingredientId, unitId, amount).value * units[unitId].factor
              == ingredients[ingredientId].prices.value[0].price * amount.value
  {
    if ingredientId in ingredients && unitId in units && amount.Some? && |PricesOf(ingredients[ingredientId])| > 0 {
      var p, a, f := ingredients[ingredientId].prices.value[0].price, amount.value, units[unitId].factor;
      assert f > 0.0;
      assert p * a / f * f == p * a;
    }
  }

  /**
   * Whether a usage contributes to the product's cost: its ingredient is
   * known and has a price (`productCost` reads the list through `?.`, so a
   * null list counts as empty).
   */
  predicate Priced(ingredients: map<int, IngredientView>, u: UsageExt)
  {
    u.usage.ingredientId in ingredients && |PricesOf(ingredients[u.usage.ingredientId])| > 0
  }

  /** `Priced` as the filter predicate over the usages. */
  function PricedIn(ingredients: map<int, IngredientView>): UsageExt -> bool
  {
    u => Priced(ingredients, u)
  }

  /** What one usage adds to the product's cost. */
  function UsageCost(ingredients: map<int, IngredientView>, u: UsageExt): real
  {
    if Priced(ingredients, u) then PricesOf(ingredients[u.usage.ingredientId])[0].price * u.usage.quantity else 0.0
  }

  /** `productCost`, before `toFixed(2)` formats it: the `reduce` from the left over the usages, starting at zero. */
  function ProductCost(usages: seq<UsageExt>, ingredients: map<int, IngredientView>): real
  {
    if |usages| == 0 then 0.0
    else ProductCost(usages[..|usages| - 1], ingredients) + UsageCost(ingredients, usages[|usages| - 1])
  }

  /** The cost as a plain sum taken from the front, independent of the fold's direction. */
  function CostSum(usages: seq<UsageExt>, ingredients: map<int, IngredientView>): real
  {
    if |usages| == 0 then 0.0 else UsageCost(ingredients, usages[0]) + CostSum(usages[1..], ingredients)
  }

  /** A usage added at the end adds its own cost. */
  lemma ProductCostAppend(usages: seq<UsageExt>, u: UsageExt, ingredients: map<int, IngredientView>)
    ensures ProductCost(usages + [u], ingredients) == ProductCost(usages, ingredients) + UsageCost(ingredients, u)
  {
    assert (usages + [u])[..|usages|] == usages;
  }

  /** Splitting the usages splits the front-to-back sum. */
  lemma {:induction false} CostSumAppend(a: seq<UsageExt>, b: seq<UsageExt>, ingredients: map<int, IngredientView>)
    ensures CostSum(a + b, ingredients) == CostSum(a, ingredients) + CostSum(b, ingredients)
    decreases |a|
  {
    if |a| > 0 {
      assert (a + b)[1..] == a[1..] + b;
      CostSumAppend(a[1..], b, ingredients);
    } else {
      assert a + b == b;
    }
  }

  /** The left fold equals the sum of every usage's cost. */
  lemma {:induction false} ProductCostIsSum(usages: seq<UsageExt>, ingredients: map<int, IngredientView>)
    ensures ProductCost(usages, ingredients) == CostSum(usages, ingredients)
    decreases |usages|
  {
    if |usages| > 0 {
      var init, last := usages[..|usages| - 1], usages[|usages| - 1];
      ProductCostIsSum(init, ingredients);
      CostSumAppend(init, [last], ingredients);
      assert init + [last] == usages;
      assert CostSum([last], ingredients) == UsageCost(ingredients, last) + CostSum([], ingredients);
    }
  }

  /** Usages whose ingredient is unknown or unpriced are skipped: dropping them keeps the cost. */
  lemma {:induction false} ProductCostSkipsUnpriced(usages: seq<UsageExt>, ingredients: map<int, IngredientView>)
    ensures ProductCost(Filtered(usages, PricedIn(ingredients)), ingredients) == ProductCost(usages, ingredients)
    decreases |usages|
  {
    if |usages| > 0 {
      var init, last := usages[..|usages| - 1], usages[|usages| - 1];
      ProductCostSkipsUnpriced(init, ingredients);
      var p := PricedIn(ingredients);
      assert Filtered(usages, p) == Filtered(init, p) + (if p(last) then [last] else []);
      if p(last) {
        ProductCostAppend(Filtered(init, p), last, ingredients);
      } else {
        assert Filtered(init, p) + [] == Filtered(init, p);
      }
    }
  }

  /** Two usages of ingredients priced 5 and 3, in quantities 2 and 3, cost 19. */
  lemma ProductCostExample()
    ensures var ingredients := map[
              1 := IngredientView(Ingredient(1, "test1"), Some([PriceView(1, 5, 5.0, 3.0, 1, 1, None)])),
              2 := IngredientView(Ingredient(2, "test2"), Some([PriceView(2, 5, 3.0, 3.0, 1, 2, None)]))];
            var usages := [
              UsageExt(IngredientUsage(1, 2.0, 1, 1, 1), None, None, false, Some(2.0)),
              UsageExt(IngredientUsage(2, 3.0, 1, 2, 1), None, None, false, Some(3.0))];
            ProductCost(usages, ingredients) == 19.0
  {
    var ingredients := map[
      1 := IngredientView(Ingredient(1, "test1"), Some([PriceView(1, 5, 5.0, 3.0, 1, 1, None)])),
      2 := IngredientView(Ingredient(2, "test2"), Some([PriceView(2, 5, 3.0, 3.0, 1, 2, None)]))];
    var usages := [
      UsageExt(IngredientUsage(1, 2.0, 1, 1, 1), None, None, false, Some(2.0)),
      UsageExt(IngredientUsage(2, 3.0, 1, 2, 1), None, None, false, Some(3.0))];
    assert usages[..1][..0] == [];
    assert usages[..1] == [usages[0]];
    assert UsageCost(ingredients, usages[0]) == 10.0;
    assert UsageCost(ingredients, usages[1]) == 9.0;
  }

  /** A quantity in base units expressed in a unit with `factor`. */
  function ShownAmount(quantity: real, factor: real): real
  {
    quantity * factor
  }

  /** An amount entered in a unit with `factor`, in base units, as the service stores it. */
  function StoredQuantity(amount: real, factor: real): real
    requires factor > 0.0
  {
    amount / factor
  }

  /** Expressing a stored quantity in the unit it was entered in gives back the amount entered. */
  lemma ShownAmountOfStored(amount: real, factor: real)
    requires factor > 0.0
    ensures ShownAmount(StoredQuantity(amount, factor), factor) == amount
  {
  }

  /**
   * `modifyIngredientUsage`: fails when the usage's unit or ingredient is
   * unknown; otherwise the usage with both attached, not editing, and its
   * amount in its own unit shown as `toFixed(2)` text.
   */
  function ModifyUsage(units: map<int, Unit>, ingredients: map<int, IngredientView>, usage: IngredientUsage): (r: Result<UsageExt>)
    ensures r.Err? <==> usage.unitId !in units || usage.ingredientId !in ingredients
    ensures r.Err? ==> r.error == UnitOrIngredientMissing(usage.id)
    ensures r.Ok? ==> r.value.usage == usage && !r.value.editing
    ensures r.Ok? ==> r.value.unit == Some(units[usage.unitId]) && r.value.ingredient == Some(ingredients[usage.ingredientId])
    ensures r.Ok? ==> r.value.displayAmount == Some(Fixed2(ShownAmount(usage.quantity, units[usage.unitId].factor)))
  {
    if usage.unitId !in units || usage.ingredientId !in ingredients then Err(UnitOrIngredientMissing(usage.id))
    else
      Ok(UsageExt(usage, Some(units[usage.unitId]), Some(ingredients[usage.ingredientId]), false,
                  Some(Fixed2(ShownAmount(usage.quantity, units[usage.unitId].factor)))))
  }

  /**
   * A usage stored as the amount entered in base units, as the service
   * stores it, is shown with that amount to two decimals: within half a
   * hundredth of it, and exactly it when it is a whole number of hundredths.
   */
  lemma DisplayShowsEnteredAmount(
    units: map<int, Unit>, ingredients: map<int, IngredientView>, usage: IngredientUsage, amount: real)
    requires FactorsPositive(units)
    requires usage.unitId in units && usage.ingredientId in ingredients
    requires usage.quantity == StoredQuantity(amount, units[usage.unitId].factor)
    ensures ModifyUsage(units, ingredients, usage).value.displayAmount == Some(Fixed2(amount))
    ensures -0.005 <= ModifyUsage(units, ingredients, usage).value.displayAmount.value - amount <= 0.005
    ensures (exists n: int :: amount == Hundredths(n)) ==>
              ModifyUsage(units, ingredients, usage).value.displayAmount == Some(amount)
  {
    ShownAmountOfStored(amount, units[usage.unitId].factor);
    Fixed2Bound(amount);
    if n: int :| amount == Hundredths(n) {
      Fixed2OfHundredths(n);
    }
  }

  /** `transformInitialUsages`: `modifyIngredientUsage` over the usages, stopping at the first that throws. */
  function ModifyAll(units: map<int, Unit>, ingredients: map<int, IngredientView>, usages: seq<IngredientUsage>): (r: Result<seq<UsageExt>>)
    ensures r.Ok? <==> forall k :: 0 <= k < |usages| ==> ModifyUsage(units, ingredients, usages[k]).Ok?
    ensures r.Ok? ==> |r.value| == |usages|
    ensures r.Ok? ==> forall k :: 0 <= k < |usages| ==> r.value[k] == ModifyUsage(units, ingredients, usages[k]).value
    ensures r.Err? ==>
              var k := FirstIndex(usages, u => ModifyUsage(units, ingredients, u).Err?);
              k.Some? && r.error == UnitOrIngredientMissing(usages[k.value].id)
    decreases |usages|
  {
    if |usages| == 0 then Ok([])
    else
      match ModifyUsage(units, ingredients, usages[0])
      case Err(e) => Err(e)
      case Ok(x) =>
        match ModifyAll(units, ingredients, usages[1..])
        case Err(e) => Err(e)
        case Ok(rest) => Ok([x] + rest)
  }

  /** `indexOf` of the product's category among the category ids: its least index, or -1. */
  function CategoryIndex(ids: seq<int>, id: int): (r: int)
    ensures r == -1 <==> id !in ids
    ensures r != -1 ==> 0 <= r < |ids| && ids[r] == id && forall j :: 0 <= j < r ==> ids[j] != id
  {
    match FirstIndex(ids, x => x == id)
    case None => -1
    case Some(k) => k
  }

  /** The state of the product edit page. */
  class ProductEditView {
    const units: map<int, Unit>
    const ingredients: map<int, IngredientView>
    const initialUsages: seq<IngredientUsage>
    var usagesExt: seq<UsageExt>
    var selectedCat: int
    var newIngredientId: int
    var newIngredientAmount: Option<real>
    var newIngredientUnitId: int
    /** Whether `init` has registered the `newIngredientId` watcher (its first step). */
    var watching: bool
    /** Whether `init` got as far as registering the `ingredient-added` listener. */
    var listening: bool

    /** `getProductEditData`: the page data before `init`. */
    constructor (units: map<int, Unit>, ingredients: map<int, IngredientView>, categoryIds: seq<int>, product: Product,
                 usages: seq<IngredientUsage>)
      ensures this.units == units && this.ingredients == ingredients && initialUsages == usages
      ensures usagesExt == [] && !watching && !listening
      ensures selectedCat == CategoryIndex(categoryIds, product.categoryId)
      ensures newIngredientId == 0 && newIngredientAmount == Some(0.0) && newIngredientUnitId == 0
    {
      this.units := units;
      this.ingredients := ingredients;
      initialUsages := usages;
      usagesExt := [];
      watching, listening := false, false;
      selectedCat := CategoryIndex(categoryIds, product.categoryId);
      newIngredientId, newIngredientAmount, newIngredientUnitId := 0, Some(0.0), 0;
    }

    /**
     * `init`: registers the watcher, transforms the initial usages and starts
     * listening for added ingredients; a usage that throws leaves the list as
     * it was and the listener unregistered, but the watcher stays.
     */
    method Init() returns (err: Option<Error>)
      modifies this`usagesExt, this`listening, this`watching
      ensures watching
      ensures var m := ModifyAll(units, ingredients, initialUsages);
              (m.Ok? ==> err.None? && usagesExt == m.value && listening) &&
              (m.Err? ==> err == Some(m.error) && usagesExt == old(usagesExt) && listening == old(listening))
    {
      watching := true;
      var m := ModifyAll(units, ingredients, initialUsages);
      if m.Err? {
        return Some(m.error);
      }
      usagesExt := m.value;
      listening := true;
      err := None;
    }

    /**
     * Setting `newIngredientId` from the form: once the watcher is registered,
     * a changed id selects its ingredient's newest price unit, or 0. The
     * watcher throws on an ingredient whose price list is null; the id is
     * set all the same and the unit stays.
     */
    method SetNewIngredientId(id: int) returns (err: Option<Error>)
      modifies this`newIngredientId, this`newIngredientUnitId
      ensures newIngredientId == id
      ensures watching && id != old(newIngredientId) && SafeUnitId(ingredients, id).Ok? ==>
                err.None? && newIngredientUnitId == SafeUnitId(ingredients, id).value.GetOr(0)
      ensures watching && id != old(newIngredientId) && SafeUnitId(ingredients, id).Err? ==>
                err == Some(NilDereference) && newIngredientUnitId == old(newIngredientUnitId)
      ensures !watching || id == old(newIngredientId) ==> err.None? && newIngredientUnitId == old(newIngredientUnitId)
    {
      err := None;
      if watching && id != newIngredientId {
        var unitId := SafeUnitId(ingredients, id);
        if unitId.Err? {
          err := Some(unitId.error);
        } else {
          newIngredientUnitId := unitId.value.GetOr(0);
        }
      }
      newIngredientId := id;
    }

    /**
     * The `ingredient-added` listener: appends the transformed usage, so the
     * product's cost grows by that usage's cost; a usage that throws adds
     * nothing.
     */
    method OnIngredientAdded(usage: IngredientUsage) returns (err: Option<Error>)
      modifies this`usagesExt
      ensures !old(listening) ==> err.None? && usagesExt == old(usagesExt)
      ensures old(listening) && ModifyUsage(units, ingredients, usage).Err? ==>
                err == Some(UnitOrIngredientMissing(usage.id)) && usagesExt == old(usagesExt)
      ensures old(listening) && ModifyUsage(units, ingredients, usage).Ok? ==>
                err.None? && usagesExt == old(usagesExt) + [ModifyUsage(units, ingredients, usage).value]
      ensures ProductCost(usagesExt, ingredients) ==
                old(ProductCost(usagesExt, ingredients)) + ProductCost(usagesExt[|old(usagesExt)|..], ingredients)
    {
      err := None;
      if listening {
        var x := ModifyUsage(units, ingredients, usage);
        if x.Err? {
          err := Some(x.error);
        } else {
          ProductCostAppend(usagesExt, x.value, ingredients);
          usagesExt := usagesExt + [x.value];
          assert usagesExt[|old(usagesExt)|..] == [x.value];
          assert [x.value][..0] == [];
        }
      }
      if usagesExt == old(usagesExt) {
        assert usagesExt[|old(usagesExt)|..] == [];
      }
    }
  }
}
