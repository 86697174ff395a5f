/**
 * Values the browser-side helpers work on, and the unit-family rule that
 * scripts/product_edit.ts and scripts/ingredients.ts both implement.
 * JSON numbers are reals; a text field is modelled by what `parseFloat`
 * makes of it (`None` for NaN), so `toFixed(2)` text is the value rounded
 * to two decimals (`Fixed2`).
 */
module Client {
  import opened Types

  /** A price row as the client receives it. */
  datatype PriceView = PriceView(
    id: int, timeStamp: int, price: real, quantity: real, unitId: int, ingredientId: int, baseProductId: Option<int>)

  /**
   * An ingredient with its price rows, newest first. An ingredient without
   * price rows reaches the page with a null list (`None`): the service never
   * appends to its slice.
   */
  datatype IngredientView = IngredientView(ingredient: Ingredient, prices: Option<seq<PriceView>>)

  /** The price rows as a guarded read (`!ingredient.prices` or `?.`) sees them: a null list is empty. */
  function PricesOf(i: IngredientView): (r: seq<PriceView>)
    ensures i.prices.None? ==> r == []
    ensures i.prices.Some? ==> r == i.prices.value
  {
    i.prices.GetOr([])
  }

  /**
   * `x.toFixed(2)` read back by `parseFloat`: the magnitude rounded to the
   * nearest hundredth, halves away from zero, then the sign put back (the
   * rule of `Number.prototype.toFixed` in ECMAScript 2015, section 20.1.3.3,
   * over exact reals).
   */
  function Fixed2(x: real): real
  {
    if x < 0.0 then -Fixed2Magnitude(-x) else Fixed2Magnitude(x)
  }

  function Fixed2Magnitude(x: real): real
  {
    (x * 100.0 + 0.5).Floor as real / 100.0
  }

  /** Rounding to two decimals moves a value by at most half a hundredth. */
  lemma Fixed2Bound(x: real)
    ensures -0.005 <= Fixed2(x) - x <= 0.005
  {
    var y := if x < 0.0 then -x else x;
    var n := (y * 100.0 + 0.5).Floor;
    assert n as real <= y * 100.0 + 0.5 < n as real + 1.0;
  }

  /** The value `n` hundredths: a number with at most two decimals. */
  function Hundredths(n: int): real
  {
    n as real / 100.0
  }

  /** A value with at most two decimals is its own rounding. */
  lemma Fixed2OfHundredths(n: int)
    ensures Fixed2(n as real / 100.0) == n as real / 100.0
  {
    var m := if n < 0 then -n else n;
    assert (m as real / 100.0 * 100.0 + 0.5).Floor == m;
  }

  /** Rounding twice is rounding once: `toFixed(2)` text parsed and shown again is the same text. */
  lemma Fixed2Idempotent(x: real)
    ensures Fixed2(Fixed2(x)) == Fixed2(x)
  {
    var y := if x < 0.0 then -x else x;
    var n := (y * 100.0 + 0.5).Floor;
    if x < 0.0 {
      Fixed2OfHundredths(-n);
      assert Fixed2(x) == (-n) as real / 100.0;
    } else {
      Fixed2OfHundredths(n);
    }
  }

  /**
   * A usage as the product page shows it: the usage, its unit and its
   * ingredient when the page found them, whether it is being edited, and
   * the amount shown in the usage's own unit (absent when not computed).
   */
  datatype UsageExt = UsageExt(
    usage: IngredientUsage, unit: Option<Unit>, ingredient: Option<IngredientView>, editing: bool, displayAmount: Option<real>)

  /** Every unit converts with a positive factor, as the unit form demands. */
  predicate FactorsPositive(units: map<int, Unit>)
  {
    forall k :: k in units ==> units[k].factor > 0.0
  }

  /** The id a unit's family is keyed by: its base unit, or the unit itself when it has none. */
  function BaseOf(u: Unit): int
  {
    u.baseUnitId.GetOr(u.id)
  }

  predicate InFamily(u: Unit, base: int)
  {
    u.id == base || u.baseUnitId == Some(base)
  }

  /**
   * `getFilteredUnitsForUnitId` over the unit record: nothing for an unknown
   * id, else every unit that is the family's base unit or is based on it.
   */
  function FamilyOf(units: map<int, Unit>, unitId: int): (r: set<Unit>)
    ensures r <= units.Values
    ensures unitId !in units ==> r == {}
  {
    if unitId !in units then {}
    else set u | u in units.Values && InFamily(u, BaseOf(units[unitId]))
  }

  /** A unit is always offered among the units of its own family. */
  lemma FamilyContainsUnit(units: map<int, Unit>, unitId: int)
    requires unitId in units
    ensures units[unitId] in FamilyOf(units, unitId)
  {
    assert units[unitId] in units.Values;
  }

  /**
   * The unit record as the unit form keeps it: each unit under its own id,
   * and a unit's base unit exists and has no base unit itself.
   */
  ghost predicate UnitsWellFormed(units: map<int, Unit>)
  {
    (forall k :: k in units ==> units[k].id == k) &&
    (forall k :: k in units && units[k].baseUnitId.Some? ==>
       units[k].baseUnitId.value in units && units[units[k].baseUnitId.value].baseUnitId.None?)
  }

  /** Every unit of a family has the same family: switching units within the list keeps the list. */
  lemma FamilyIsStable(units: map<int, Unit>, unitId: int, k: int)
    requires UnitsWellFormed(units)
    requires k in units && units[k] in FamilyOf(units, unitId)
    ensures FamilyOf(units, k) == FamilyOf(units, unitId)
  {
    var base := BaseOf(units[unitId]);
    if units[unitId].baseUnitId.Some? && k == base {
      assert units[base].baseUnitId.None?;
    }
    assert BaseOf(units[k]) == base;
  }
}
