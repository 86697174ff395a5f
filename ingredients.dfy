/**
 * The ingredient list page of scripts/ingredients.ts: every ingredient is
 * shown with its newest price as a display price (the price of the row's
 * quantity) and a display quantity, and editing either display field writes
 * the parsed value back into the price row. The unit list offered for a row
 * is `Client.FamilyOf`; start/cancel/remove are `Editing.EditingHelpers`.
 */
module IngredientsPage {
  import opened Types
  import opened Client

  /** An ingredient with one price row, as the page receives it. */
  datatype IngredientWithPrice = IngredientWithPrice(ingredient: Ingredient, price: PriceView)

  /**
   * What `modifyIngredient` adds; a display field holds what `parseFloat`
   * makes of its text, `None` for NaN. The page fills both display fields
   * with `toFixed(2)` text, so they start out rounded to two decimals.
   */
  datatype Extras = Extras(isBase: bool, editing: bool, displayPrice: Option<real>, displayQuantity: Option<real>, unit: Unit)

  /** A row of the page: the received record and, when its unit was found, the added fields. */
  datatype IngredientExt = IngredientExt(base: IngredientWithPrice, extras: Option<Extras>)

  /** The price shown for a row: the price per base unit times the row's quantity. */
  function DisplayPrice(price: real, factor: real, quantity: real): real
    requires factor != 0.0
  {
    price / factor * quantity
  }

  /** The price `setIngredientPrice` stores for a shown price. */
  function PriceFromDisplay(parsed: real, quantity: real, factor: real): real
    requires quantity != 0.0
  {
    parsed / quantity * factor
  }

  /** Storing a shown price gives back the price it was shown for. */
  lemma PriceRoundTrip(price: real, factor: real, quantity: real)
    requires factor != 0.0 && quantity != 0.0
    ensures PriceFromDisplay(DisplayPrice(price, factor, quantity), quantity, factor) == price
  {
    calc {
      price / factor * quantity / quantity * factor;
      { assert price / factor * quantity / quantity == price / factor; }
      price / factor * factor;
    }
  }

  /** Showing a stored price gives back the text's value it was stored from. */
  lemma DisplayRoundTrip(parsed: real, factor: real, quantity: real)
    requires factor != 0.0 && quantity != 0.0
    ensures DisplayPrice(PriceFromDisplay(parsed, quantity, factor), factor, quantity) == parsed
  {
    calc {
      parsed / quantity * factor / factor * quantity;
      { assert parsed / quantity * factor / factor == parsed / quantity; }
      parsed / quantity * quantity;
    }
  }

  /**
   * `modifyIngredient`: a row whose unit is unknown is the received record
   * unchanged; otherwise it is marked base exactly when its price has no
   * base product, is not being edited, and shows its price and quantity
   * rounded to two decimals.
   */
  function ModifyIngredient(units: map<int, Unit>, x: IngredientWithPrice): (r: IngredientExt)
    requires FactorsPositive(units)
    ensures r.base == x
    ensures r.extras.None? <==> x.price.unitId !in units
    ensures r.extras.Some? ==> (r.extras.value.isBase <==> x.price.baseProductId.None?)
    ensures r.extras.Some? ==> !r.extras.value.editing && r.extras.value.unit == units[x.price.unitId]
    ensures r.extras.Some? ==> r.extras.value.displayQuantity == Some(Fixed2(x.price.quantity))
    ensures r.extras.Some? ==> r.extras.value.displayPrice.Some?
    ensures r.extras.Some? ==>
              r.extras.value.displayPrice.value == Fixed2(DisplayPrice(x.price.price, units[x.price.unitId].factor, x.price.quantity))
  {
    if x.price.unitId !in units then IngredientExt(x, None)
    else
      IngredientExt(x, Some(Extras(
        x.price.baseProductId.None?, false,
        Some(Fixed2(DisplayPrice(x.price.price, units[x.price.unitId].factor, x.price.quantity))),
        Some(Fixed2(x.price.quantity)), units[x.price.unitId])))
  }

  /** The text of the display price as parsed; a row without the added fields has none (NaN). */
  function ParsedPrice(e: IngredientExt): Option<real>
  {
    if e.extras.None? then None else e.extras.value.displayPrice
  }

  function ParsedQuantity(e: IngredientExt): Option<real>
  {
    if e.extras.None? then None else e.extras.value.displayQuantity
  }

  /**
   * `setIngredientPrice` on one row: with a known unit and a parsed display
   * price, the row's price becomes the price that display stands for;
   * otherwise nothing changes.
   */
  function WithDisplayedPrice(units: map<int, Unit>, e: IngredientExt): (r: IngredientExt)
    requires FactorsPositive(units)
    requires e.base.price.quantity != 0.0
    ensures r.extras == e.extras && r.base.ingredient == e.base.ingredient
    ensures r.base.price == e.base.price.(price := r.base.price.price)
    ensures e.base.price.unitId !in units || ParsedPrice(e).None? ==> r == e
    ensures e.base.price.unitId in units && ParsedPrice(e).Some? ==>
              DisplayPrice(r.base.price.price, units[e.base.price.unitId].factor, e.base.price.quantity) == ParsedPrice(e).value
  {
    var p := e.base.price;
    if p.unitId !in units || ParsedPrice(e).None? then e
    else
      DisplayRoundTrip(ParsedPrice(e).value, units[p.unitId].factor, p.quantity);
      e.(base := e.base.(price := p.(price := PriceFromDisplay(ParsedPrice(e).value, p.quantity, units[p.unitId].factor))))
  }

  /** `setIngredientQuantity` on one row: a parsed display quantity becomes the row's quantity. */
  function WithDisplayedQuantity(e: IngredientExt): (r: IngredientExt)
    ensures ParsedQuantity(e).None? ==> r == e
    ensures ParsedQuantity(e).Some? ==> r == e.(base := e.base.(price := e.base.price.(quantity := ParsedQuantity(e).value)))
  {
    if ParsedQuantity(e).None? then e
    else e.(base := e.base.(price := e.base.price.(quantity := ParsedQuantity(e).value)))
  }

  /** For a fixed unit and quantity, two prices that show the same are the same price. */
  lemma DisplayPriceInjective(a: real, b: real, factor: real, quantity: real)
    requires factor != 0.0 && quantity != 0.0
    ensures DisplayPrice(a, factor, quantity) == DisplayPrice(b, factor, quantity) <==> a == b
  {
    PriceRoundTrip(a, factor, quantity);
    PriceRoundTrip(b, factor, quantity);
  }

  /**
   * Confirming a row's price as it was shown stores the price of the rounded
   * display: it shows as the same text, lies within half a hundredth of the
   * price shown before rounding, and the row is then exactly what
   * `modifyIngredient` builds from its new record. The row is unchanged
   * exactly when the price already showed at two decimals.
   */
  lemma ConfirmShownPrice(units: map<int, Unit>, x: IngredientWithPrice)
    requires FactorsPositive(units)
    requires x.price.quantity != 0.0
    ensures x.price.unitId in units ==>
              var f, q := units[x.price.unitId].factor, x.price.quantity;
              var r := WithDisplayedPrice(units, ModifyIngredient(units, x));
              DisplayPrice(r.base.price.price, f, q) == Fixed2(DisplayPrice(x.price.price, f, q))
    ensures x.price.unitId in units ==>
              var f, q := units[x.price.unitId].factor, x.price.quantity;
              var r := WithDisplayedPrice(units, ModifyIngredient(units, x));
              -0.005 <= DisplayPrice(r.base.price.price, f, q) - DisplayPrice(x.price.price, f, q) <= 0.005
    ensures x.price.unitId in units ==>
              var r := WithDisplayedPrice(units, ModifyIngredient(units, x));
              ModifyIngredient(units, r.base) == r
    ensures x.price.unitId in units ==>
              var f, q := units[x.price.unitId].factor, x.price.quantity;
              (WithDisplayedPrice(units, ModifyIngredient(units, x)) == ModifyIngredient(units, x) <==>
               Fixed2(DisplayPrice(x.price.price, f, q)) == DisplayPrice(x.price.price, f, q))
  {
    if x.price.unitId in units {
      var f, q := units[x.price.unitId].factor, x.price.quantity;
      var e := ModifyIngredient(units, x);
      var d := DisplayPrice(x.price.price, f, q);
      var r := WithDisplayedPrice(units, e);
      assert ParsedPrice(e) == Some(Fixed2(d));
      var stored := r.base.price.price;
      assert DisplayPrice(stored, f, q) == Fixed2(d);
      Fixed2Bound(d);
      Fixed2Idempotent(d);
      assert r.base == x.(price := x.price.(price := stored));
      assert ModifyIngredient(units, r.base).extras == r.extras;
      DisplayPriceInjective(stored, x.price.price, f, q);
    }
  }

  /**
   * Confirming a row's quantity as it was shown stores the quantity rounded
   * to two decimals, within half a hundredth of it; the quantity then shows
   * as the same text, and the row is unchanged exactly when the quantity had
   * at most two decimals.
   */
  lemma ConfirmShownQuantity(units: map<int, Unit>, x: IngredientWithPrice)
    requires FactorsPositive(units)
    ensures x.price.unitId in units ==>
              WithDisplayedQuantity(ModifyIngredient(units, x)).base.price == x.price.(quantity := Fixed2(x.price.quantity))
    ensures -0.005 <= Fixed2(x.price.quantity) - x.price.quantity <= 0.005
    ensures x.price.unitId in units ==>
              var r := WithDisplayedQuantity(ModifyIngredient(units, x));
              ModifyIngredient(units, r.base).extras.value.displayQuantity == r.extras.value.displayQuantity
    ensures x.price.unitId in units ==>
              (WithDisplayedQuantity(ModifyIngredient(units, x)) == ModifyIngredient(units, x) <==>
               Fixed2(x.price.quantity) == x.price.quantity)
  {
    Fixed2Bound(x.price.quantity);
    if x.price.unitId in units {
      Fixed2Idempotent(x.price.quantity);
      var e := ModifyIngredient(units, x);
      var r := WithDisplayedQuantity(e);
      if r == e {
        assert r.base.price.quantity == x.price.quantity;
      }
    }
  }

  /**
   * A price of 0.0123 per base unit, for 1 of a factor-1 unit, shows as
   * "0.01"; confirming it stores 0.01.
   */
  lemma RoundedPriceExample()
    ensures var units := map[1 := Unit(1, "g", None, 1.0)];
            var x := IngredientWithPrice(Ingredient(1, "Yeast"), PriceView(1, 1, 0.0123, 1.0, 1, 1, None));
            ModifyIngredient(units, x).extras.value.displayPrice == Some(0.01) &&
            WithDisplayedPrice(units, ModifyIngredient(units, x)).base.price.price == 0.01
  {
    assert (0.0123 * 100.0 + 0.5).Floor == 1;
    assert Fixed2(0.0123) == 0.01;
  }

  /** The state of the ingredient list page. */
  class IngredientsView {
    const units: map<int, Unit>
    const ingredients: seq<IngredientWithPrice>
    var ingredientsExt: seq<IngredientExt>
    /** Whether `init` has registered the `ingredient-added` listener. */
    var listening: bool

    /** `getIngredientsData`: the page data before `init`. */
    constructor (units: map<int, Unit>, ingredients: seq<IngredientWithPrice>)
      ensures this.units == units && this.ingredients == ingredients
      ensures ingredientsExt == [] && !listening
    {
      this.units := units;
      this.ingredients := ingredients;
      ingredientsExt := [];
      listening := false;
    }

    /** `init`: every ingredient transformed, one row each and in order, and the listener registered. */
    method Init()
      requires FactorsPositive(units)
      modifies this`ingredientsExt, this`listening
      ensures |ingredientsExt| == |ingredients| && listening
      ensures forall k :: 0 <= k < |ingredients| ==> ingredientsExt[k] == ModifyIngredient(units, ingredients[k])
      ensures forall k :: 0 <= k < |ingredients| ==> ingredientsExt[k].base == ingredients[k]
    {
      ingredientsExt := seq(|ingredients|, k requires 0 <= k < |ingredients| => ModifyIngredient(units, ingredients[k]));
      listening := true;
    }

    /** The `ingredient-added` listener: appends exactly one transformed row. */
    method OnIngredientAdded(x: IngredientWithPrice)
      requires FactorsPositive(units)
      modifies this`ingredientsExt
      ensures listening ==> ingredientsExt == old(ingredientsExt) + [ModifyIngredient(units, x)]
      ensures !listening ==> ingredientsExt == old(ingredientsExt)
    {
      if listening {
        ingredientsExt := ingredientsExt + [ModifyIngredient(units, x)];
      }
    }

    /** `setIngredientPrice` on row `k`. */
    method SetIngredientPrice(k: int)
      requires FactorsPositive(units)
      requires 0 <= k < |ingredientsExt| && ingredientsExt[k].base.price.quantity != 0.0
      modifies this`ingredientsExt
      ensures ingredientsExt == old(ingredientsExt)[k := WithDisplayedPrice(units, old(ingredientsExt[k]))]
    {
      var e := ingredientsExt[k];
      var p := e.base.price;
      if p.unitId !in units {
        return;
      }
      var parsed := ParsedPrice(e);
      if parsed.Some? {
        var stored := PriceFromDisplay(parsed.value, p.quantity, units[p.unitId].factor);
        ingredientsExt := ingredientsExt[k := e.(base := e.base.(price := p.(price := stored)))];
      }
    }

    /** `setIngredientQuantity` on row `k`. */
    method SetIngredientQuantity(k: int)
      requires 0 <= k < |ingredientsExt|
      modifies this`ingredientsExt
      ensures ingredientsExt == old(ingredientsExt)[k := WithDisplayedQuantity(old(ingredientsExt[k]))]
    {
      var e := ingredientsExt[k];
      var parsed := ParsedQuantity(e);
      if parsed.Some? {
        ingredientsExt := ingredientsExt[k := e.(base := e.base.(price := e.base.price.(quantity := parsed.value)))];
      }
    }
  }
}
