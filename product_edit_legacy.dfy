/**
 * The older product edit page of assets/product_edit.js: units and
 * ingredients are arrays searched with `find`, a usage carries the unit and
 * ingredient found for it (or nothing), and the product's cost is a loop
 * over the usages reading each usage's attached ingredient.
 */
module ProductEditLegacy {
  import opened Types
  import opened GoUtils
  import opened Client
  import ProductEdit

  function HasUnitId(id: int): Unit -> bool
  {
    (u: Unit) => u.id == id
  }

  function HasIngredientId(id: int): IngredientView -> bool
  {
    (i: IngredientView) => i.ingredient.id == id
  }

  /** `units.find(u => u.id === id)`: the first unit with that id. */
  function FindUnit(units: seq<Unit>, id: int): (r: Option<Unit>)
    ensures r.None? <==> forall k :: 0 <= k < |units| ==> units[k].id != id
    ensures r.Some? ==> r.value in units && r.value.id == id
  {
    match FirstIndex(units, HasUnitId(id))
    case None => None
    case Some(k) => Some(units[k])
  }

  /** `ingredients.find(i => i.ingredient.id === id)`: the first ingredient with that id. */
  function FindIngredient(ingredients: seq<IngredientView>, id: int): (r: Option<IngredientView>)
    ensures r.None? <==> forall k :: 0 <= k < |ingredients| ==> ingredients[k].ingredient.id != id
    ensures r.Some? ==> r.value in ingredients && r.value.ingredient.id == id
  {
    match FirstIndex(ingredients, HasIngredientId(id))
    case None => None
    case Some(k) => Some(ingredients[k])
  }

  function InFamilyOf(base: int): Unit -> bool
  {
    u => InFamily(u, base)
  }

  /** `getFilteredUnitsForUnitId` over the unit array: the family, in array order. */
  function FamilyList(units: seq<Unit>, unitId: int): seq<Unit>
  {
    match FindUnit(units, unitId)
    case None => []
    case Some(u) => Filtered(units, InFamilyOf(BaseOf(u)))
  }

  /**
   * The list is empty for an unknown unit id; otherwise it holds exactly the
   * units that are the family's base unit or are based on it.
   */
  lemma FamilyListMembers(units: seq<Unit>, unitId: int, v: Unit)
    ensures FindUnit(units, unitId).None? ==> FamilyList(units, unitId) == []
    ensures FindUnit(units, unitId).Some? ==>
              (v in FamilyList(units, unitId) <==> v in units && InFamily(v, BaseOf(FindUnit(units, unitId).value)))
  {
    if FindUnit(units, unitId).Some? {
      FilteredMembers(units, InFamilyOf(BaseOf(FindUnit(units, unitId).value)), v);
    }
  }

  /**
   * Over a unit array and a unit record holding the same units under their
   * ids, the array version lists the same units as `Client.FamilyOf`.
   */
  lemma FamilyListAgrees(units: seq<Unit>, record: map<int, Unit>, unitId: int)
    requires forall k :: k in record ==> record[k].id == k
    requires forall u :: u in record.Values ==> u in units
    requires forall u :: u in units ==> u.id in record && record[u.id] == u
    ensures (set v | v in FamilyList(units, unitId)) == FamilyOf(record, unitId)
  {
    var found := FindUnit(units, unitId);
    if found.None? {
      assert unitId !in record;
    } else {
      assert unitId in record && record[unitId] == found.value;
      var base := BaseOf(found.value);
      forall v | v in FamilyList(units, unitId)
        ensures v in FamilyOf(record, unitId)
      {
        FamilyListMembers(units, unitId, v);
        assert record[v.id] == v;
      }
      forall v | v in FamilyOf(record, unitId)
        ensures v in FamilyList(units, unitId)
      {
        FamilyListMembers(units, unitId, v);
      }
    }
  }

  /**
   * `getSafeUnitIdFromIngredient`: the first ingredient with the id (loose
   * `==` on numbers is `==`) and its newest price's unit. This page guards
   * every read of the price list with `!ingredient.prices`, so a null list
   * counts as empty.
   */
  function SafeUnitId(ingredients: seq<IngredientView>, ingredientId: int): (r: Option<int>)
    ensures r.None? <==> FindIngredient(ingredients, ingredientId).None? || |PricesOf(FindIngredient(ingredients, ingredientId).value)| == 0
    ensures r.Some? ==> r.value == PricesOf(FindIngredient(ingredients, ingredientId).value)[0].unitId
  {
    match FindIngredient(ingredients, ingredientId)
    case None => None
    case Some(i) => if |PricesOf(i)| == 0 then None else Some(PricesOf(i)[0].unitId)
  }

  /** Every unit converts with a positive factor. */
  predicate FactorsPositiveList(units: seq<Unit>)
  {
    forall k :: 0 <= k < |units| ==> units[k].factor > 0.0
  }

  /** `newIngredientCost`: zero on any missing input, else the newest price times the amount in base units. */
  function NewIngredientCost(
    ingredients: seq<IngredientView>, units: seq<Unit>, ingredientId: int, unitId: int, amount: Option<real>): (r: real)
    requires FactorsPositiveList(units)
  {
    var i, u := FindIngredient(ingredients, ingredientId), FindUnit(units, unitId);
    if i.None? || |PricesOf(i.value)| == 0 || u.None? || amount.None? then 0.0
    else PricesOf(i.value)[0].price * amount.value / u.value.factor
  }

  /** Converted back by the unit's factor, a non-zero new ingredient cost is price times amount. */
  lemma NewIngredientCostScales(
    ingredients: seq<IngredientView>, units: seq<Unit>, ingredientId: int, unitId: int, amount: Option<real>)
    requires FactorsPositiveList(units)
    ensures var i, u := FindIngredient(ingredients, ingredientId), FindUnit(units, unitId);
            if i.None? || |PricesOf(i.value)| == 0 || u.None? || amount.None? then
              NewIngredientCost(ingredients, units, ingredientId, unitId, amount) == 0.0
            else
              NewIngredientCost(ingredients, units, ingredientId, unitId, amount) * u.value.factor == PricesOf(i.value)[0].price * amount.value
  {
    var i, u := FindIngredient(ingredients, ingredientId), FindUnit(units, unitId);
    if !(i.None? || |PricesOf(i.value)| == 0 || u.None? || amount.None?) {
      var k :| 0 <= k < |units| && units[k] == u.value;
      var p, a, f := PricesOf(i.value)[0].price, amount.value, u.value.factor;
      assert f > 0.0;
      assert p * a / f * f == p * a;
    }
  }

  /**
   * `modifyIngredientUsage` of the older page: never fails; the unit and the
   * ingredient are whatever `find` returned, and the usage is not editing.
   */
  function ModifyUsage(usage: IngredientUsage, units: seq<Unit>, ingredients: seq<IngredientView>): (r: UsageExt)
    ensures r.usage == usage && !r.editing
    ensures r.unit.None? <==> forall k :: 0 <= k < |units| ==> units[k].id != usage.unitId
    ensures r.ingredient.None? <==> forall k :: 0 <= k < |ingredients| ==> ingredients[k].ingredient.id != usage.ingredientId
    ensures r.unit.Some? ==> r.unit.value in units && r.unit.value.id == usage.unitId
    ensures r.ingredient.Some? ==> r.ingredient.value in ingredients && r.ingredient.value.ingredient.id == usage.ingredientId
  {
    UsageExt(usage, FindUnit(units, usage.unitId), FindIngredient(ingredients, usage.ingredientId), false, None)
  }

  /** What one usage adds through its attached ingredient; nothing when that ingredient has no price. */
  function AttachedCost(i: IngredientView, quantity: real): real
  {
    if |PricesOf(i)| == 0 then 0.0 else PricesOf(i)[0].price * quantity
  }

  /**
   * `productCost` as written: the loop reads `usage.ingredient.prices`, which
   * throws on a usage whose ingredient `find` did not find.
   */
  function CostAsWritten(usages: seq<UsageExt>): Result<real>
  {
    if |usages| == 0 then Ok(0.0)
    else
      match CostAsWritten(usages[..|usages| - 1])
      case Err(e) => Err(e)
      case Ok(c) =>
        var u := usages[|usages| - 1];
        if u.ingredient.None? then Err(NilDereference) else Ok(c + AttachedCost(u.ingredient.value, u.usage.quantity))
  }

  /** `productCost` as evidently intended: a usage without an ingredient, like one without a price, adds nothing. */
  function Cost(usages: seq<UsageExt>): real
  {
    if |usages| == 0 then 0.0
    else
      var u := usages[|usages| - 1];
      Cost(usages[..|usages| - 1]) + (if u.ingredient.None? then 0.0 else AttachedCost(u.ingredient.value, u.usage.quantity))
  }

  /** The loop as written. */
  method ProductCostAsWritten(usages: seq<UsageExt>) returns (r: Result<real>)
    ensures r == CostAsWritten(usages)
  {
    var cost := 0.0;
    for i := 0 to |usages|
      invariant CostAsWritten(usages[..i]).Ok? && CostAsWritten(usages[..i]).value == cost
    {
      assert usages[..i + 1][..i] == usages[..i];
      var u := usages[i];
      if u.ingredient.None? {
        assert CostAsWritten(usages[..i + 1]) == Err(NilDereference);
        CostAsWrittenKeepsError(usages, i + 1);
        return Err(NilDereference);
      }
      assert CostAsWritten(usages[..i + 1]).Ok?;
      assert CostAsWritten(usages[..i + 1]).value == cost + AttachedCost(u.ingredient.value, u.usage.quantity);
      if |PricesOf(u.ingredient.value)| == 0 {
        continue;
      }
      cost := cost + PricesOf(u.ingredient.value)[0].price * u.usage.quantity;
    }
    assert usages[..|usages|] == usages;
    return Ok(cost);
  }

  /** The loop with the missing ingredient skipped. */
  method ProductCost(usages: seq<UsageExt>) returns (cost: real)
    ensures cost == Cost(usages)
  {
    cost := 0.0;
    for i := 0 to |usages|
      invariant Cost(usages[..i]) == cost
    {
      assert usages[..i + 1][..i] == usages[..i];
      var u := usages[i];
      if u.ingredient.None? || |PricesOf(u.ingredient.value)| == 0 {
        continue;
      }
      cost := cost + PricesOf(u.ingredient.value)[0].price * u.usage.quantity;
    }
    assert usages[..|usages|] == usages;
  }

  /** Once a prefix of the usages throws, every longer prefix throws the same. */
  lemma {:induction false} CostAsWrittenKeepsError(usages: seq<UsageExt>, n: nat)
    requires n <= |usages|
    requires CostAsWritten(usages[..n]).Err?
    ensures CostAsWritten(usages) == CostAsWritten(usages[..n])
    decreases |usages| - n
  {
    if n < |usages| {
      assert usages[..n + 1][..n] == usages[..n];
      CostAsWrittenKeepsError(usages, n + 1);
    } else {
      assert usages[..n] == usages;
    }
  }

  /**
   * The loop as written answers exactly when every usage has its
   * ingredient, and then agrees with the intended cost.
   */
  lemma {:induction false} CostAsWrittenAgrees(usages: seq<UsageExt>)
    ensures CostAsWritten(usages).Ok? <==> forall k :: 0 <= k < |usages| ==> usages[k].ingredient.Some?
    ensures CostAsWritten(usages).Ok? ==> CostAsWritten(usages).value == Cost(usages)
    ensures CostAsWritten(usages).Err? ==> CostAsWritten(usages).error == NilDereference
    decreases |usages|
  {
    if |usages| > 0 {
      var init := usages[..|usages| - 1];
      CostAsWrittenAgrees(init);
      assert forall k :: 0 <= k < |init| ==> init[k] == usages[k];
    }
  }

  /** A usage whose ingredient is not on the page makes the loop as written throw; intended, it costs nothing. */
  lemma MissingIngredientThrows()
    ensures var usages := [UsageExt(IngredientUsage(1, 2.0, 1, 7, 1), None, None, false, None)];
            CostAsWritten(usages) == Err(NilDereference) && Cost(usages) == 0.0
  {
    var usages := [UsageExt(IngredientUsage(1, 2.0, 1, 7, 1), None, None, false, None)];
    assert usages[..0] == [];
  }

  /**
   * With every usage carrying the ingredient a lookup by id finds, the older
   * page's intended cost is the newer page's `productCost`.
   */
  lemma {:induction false} CostMatchesLookup(usages: seq<UsageExt>, ingredients: map<int, IngredientView>)
    requires forall k :: 0 <= k < |usages| ==>
               usages[k].ingredient == (if usages[k].usage.ingredientId in ingredients then Some(ingredients[usages[k].usage.ingredientId]) else None)
    ensures Cost(usages) == ProductEdit.ProductCost(usages, ingredients)
    decreases |usages|
  {
    if |usages| > 0 {
      var init := usages[..|usages| - 1];
      assert forall k :: 0 <= k < |init| ==> init[k] == usages[k];
      CostMatchesLookup(init, ingredients);
    }
  }

  /** The older page's state. */
  class ProductEditLegacyView {
    const units: seq<Unit>
    const ingredients: seq<IngredientView>
    var usages: seq<UsageExt>
    var selectedCat: int
    var newIngredientId: int
    var newIngredientAmount: Option<real>
    /** Set by the watcher, which may set it to null. */
    var newIngredientUnitId: Option<int>
    /** Whether `init` has registered the watcher and the `ingredient-added` listener. */
    var listening: bool

    /** `getProductEditData` of the older page: every initial usage transformed, in order. */
    constructor (units: seq<Unit>, ingredients: seq<IngredientView>, categoryIds: seq<int>, product: Product,
                 initial: seq<IngredientUsage>)
      ensures this.units == units && this.ingredients == ingredients
      ensures |usages| == |initial| && forall k :: 0 <= k < |initial| ==> usages[k] == ModifyUsage(initial[k], units, ingredients)
      ensures selectedCat == ProductEdit.CategoryIndex(categoryIds, product.categoryId)
      ensures newIngredientId == 0 && newIngredientAmount == Some(0.0) && newIngredientUnitId == Some(0) && !listening
    {
      this.units := units;
      this.ingredients := ingredients;
      usages := seq(|initial|, k requires 0 <= k < |initial| => ModifyUsage(initial[k], units, ingredients));
      selectedCat := ProductEdit.CategoryIndex(categoryIds, product.categoryId);
      newIngredientId, newIngredientAmount, newIngredientUnitId := 0, Some(0.0), Some(0);
      listening := false;
    }

    /** `init`: registers the watcher and the listener. */
    method Init()
      modifies this`listening
      ensures listening
    {
      listening := true;
    }

    /**
     * Setting the new ingredient id: the watcher on the safe unit id fires
     * when that value changes and copies it, null included.
     */
    method SetNewIngredientId(id: int)
      modifies this`newIngredientId, this`newIngredientUnitId
      ensures newIngredientId == id
      ensures listening && SafeUnitId(ingredients, id) != SafeUnitId(ingredients, old(newIngredientId)) ==>
                newIngredientUnitId == SafeUnitId(ingredients, id)
      ensures !listening || SafeUnitId(ingredients, id) == SafeUnitId(ingredients, old(newIngredientId)) ==>
                newIngredientUnitId == old(newIngredientUnitId)
    {
      var before := SafeUnitId(ingredients, newIngredientId);
      newIngredientId := id;
      if listening && SafeUnitId(ingredients, id) != before {
        newIngredientUnitId := SafeUnitId(ingredients, id);
      }
    }

    /** The `ingredient-added` listener: appends exactly one transformed usage. */
    method OnIngredientAdded(usage: IngredientUsage)
      modifies this`usages
      ensures listening ==> usages == old(usages) + [ModifyUsage(usage, units, ingredients)]
      ensures !listening ==> usages == old(usages)
    {
      if listening {
        usages := usages + [ModifyUsage(usage, units, ingredients)];
      }
    }
  }
}
