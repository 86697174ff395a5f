/**
 * The price part of `UpdateIngredientWithPrice`: validating the update,
 * converting the price to the base unit, deciding whether the latest price
 * row already says the same (the "gate"), and refreshing the working row
 * after a new price row was inserted.
 */
module PriceGate {
  import opened Types
  import opened Grouping

  /** What a client sends to update an ingredient and its current price. */
  datatype UpdateIngredientParams = UpdateIngredientParams(
    id: int, name: string, price: Option<real>, quantity: real, unitId: int, baseProductId: Option<int>)

  /** The unit lookup, then the rule that exactly one of price and base product is set. */
  function Validate(units: map<int, Unit>, params: UpdateIngredientParams): (r: Result<Unit>)
    ensures r.Ok? <==> params.unitId in units && (params.price.Some? <==> params.baseProductId.None?)
    ensures r.Ok? ==> r.value == units[params.unitId]
    ensures params.unitId !in units ==> r == Err(UnitNotFound)
    ensures params.unitId in units && r.Err? ==> r == Err(PriceXorBaseProduct)
  {
    if params.unitId !in units then Err(UnitNotFound)
    else if (params.price.None? && params.baseProductId.None?) || (params.price.Some? && params.baseProductId.Some?)
    then Err(PriceXorBaseProduct)
    else Ok(units[params.unitId])
  }

  /** `price` for `quantity` of a unit with `factor`, as a price per base unit. */
  function BaseUnitPrice(price: real, quantity: real, factor: real): real
    requires quantity != 0.0 && factor != 0.0
  {
    price / (quantity / factor)
  }

  /** The stored price is the given price scaled by the unit factor over the quantity. */
  lemma BaseUnitPriceScales(price: real, quantity: real, factor: real)
    requires quantity != 0.0 && factor != 0.0
    ensures BaseUnitPrice(price, quantity, factor) == price * factor / quantity
    ensures BaseUnitPrice(price, quantity, factor) * quantity == price * factor
  {
    var perBase := quantity / factor;
    assert perBase * factor == quantity;
    calc {
      BaseUnitPrice(price, quantity, factor) * quantity;
      (price / perBase) * (perBase * factor);
      { assert (price / perBase) * perBase == price; }
      price * factor;
    }
  }

  /** The price a validated update records: converted to the base unit, or none when it names a base product. */
  function ConvertedPrice(params: UpdateIngredientParams, unit: Unit): (r: Option<real>)
    requires params.quantity != 0.0 && unit.factor != 0.0
    ensures r.Some? <==> params.price.Some?
    ensures r.Some? ==> r.value * params.quantity == params.price.value * unit.factor
  {
    if params.price.Some? then
      BaseUnitPriceScales(params.price.value, params.quantity, unit.factor);
      Some(BaseUnitPrice(params.price.value, params.quantity, unit.factor))
    else None
  }

  /** A working row whose price id is set also has its other price columns (they are NOT NULL in the price table). */
  predicate JoinedRow(row: IngredientRow)
  {
    row.priceId.Some? ==> row.timeStamp.Some? && row.quantity.Some? && row.unitId.Some?
  }

  /**
   * The intended gate: insert a price row when there is none yet, or when
   * price, base product, quantity or unit differ by value.
   */
  function NeedsInsert(row: IngredientRow, converted: Option<real>, params: UpdateIngredientParams): (b: bool)
    ensures !b <==> row.priceId.Some? && row.price == converted && row.baseProductId == params.baseProductId
                    && row.quantity == Some(params.quantity) && row.unitId == Some(params.unitId)
  {
    row.priceId.None?
    || row.price.Some? != converted.Some?
    || (row.price.Some? && converted.Some? && row.price.value != converted.value)
    || row.baseProductId.Some? != params.baseProductId.Some?
    || (row.baseProductId.Some? && params.baseProductId.Some? && row.baseProductId.value != params.baseProductId.value)
    || row.quantity != Some(params.quantity)
    || row.unitId != Some(params.unitId)
  }

  /**
   * Go's `!=` on two pointers that never alias (a scanned column and a
   * freshly allocated or client-supplied value): they differ unless both are nil.
   */
  function PointersDiffer<T>(a: Option<T>, b: Option<T>): bool
  {
    !(a.None? && b.None?)
  }

  /** The gate as written: the price and base-product pointers are compared by address. */
  function NeedsInsertAsWritten(row: IngredientRow, converted: Option<real>, params: UpdateIngredientParams): bool
  {
    row.priceId.None?
    || PointersDiffer(row.price, converted)
    || (row.price.Some? && converted.Some? && row.price.value != converted.value)
    || PointersDiffer(row.baseProductId, params.baseProductId)
    || (row.baseProductId.Some? && params.baseProductId.Some? && row.baseProductId.value != params.baseProductId.value)
    || row.quantity != Some(params.quantity)
    || row.unitId != Some(params.unitId)
  }

  /** For every update that passes validation the gate as written asks for a new price row. */
  lemma AsWrittenAlwaysInserts(row: IngredientRow, converted: Option<real>, params: UpdateIngredientParams)
    requires params.price.Some? <==> params.baseProductId.None?
    requires converted.Some? <==> params.price.Some?
    ensures NeedsInsertAsWritten(row, converted, params)
  {
  }

  /** The intended gate asks for no more inserts than the one as written. */
  lemma NeedsInsertImpliesAsWritten(row: IngredientRow, converted: Option<real>, params: UpdateIngredientParams)
    ensures NeedsInsert(row, converted, params) ==> NeedsInsertAsWritten(row, converted, params)
  {
  }

  /** An unchanged price of 1.5 for 1 of a factor-1 unit: no insert is needed, but the gate as written inserts. */
  lemma UnchangedPriceIsInserted()
    ensures var row := IngredientRow(1, "Flour", Some(101), None, Some(1.5), Some(1.0), Some(1), None);
            var params := UpdateIngredientParams(1, "Flour", Some(1.5), 1.0, 1, None);
            var converted := ConvertedPrice(params, Unit(1, "unit", None, 1.0));
            !NeedsInsert(row, converted, params) && NeedsInsertAsWritten(row, converted, params)
  {
    var params := UpdateIngredientParams(1, "Flour", Some(1.5), 1.0, 1, None);
    assert ConvertedPrice(params, Unit(1, "unit", None, 1.0)) == Some(1.5);
  }

  /** The price row an update inserts, with the id and time stamp the store assigns. */
  function InsertedPrice(params: UpdateIngredientParams, converted: Option<real>, id: int, timeStamp: int): IngredientPrice
  {
    IngredientPrice(id, timeStamp, params.id, converted, params.quantity, params.unitId, params.baseProductId)
  }

  /** The working row after an insert, as written: every price column but the base product is refreshed. */
  function RefreshAsWritten(row: IngredientRow, q: IngredientPrice): IngredientRow
  {
    row.(priceId := Some(q.id), timeStamp := Some(q.timeStamp), price := q.price,
         quantity := Some(q.quantity), unitId := Some(q.unitId))
  }

  /** The working row after an insert, base product included. */
  function Refresh(row: IngredientRow, q: IngredientPrice): (r: IngredientRow)
    ensures JoinedRow(r)
  {
    RefreshAsWritten(row, q).(baseProductId := q.baseProductId)
  }

  /** Reading the refreshed row back yields exactly the inserted price row. */
  lemma RefreshReadsBack(row: IngredientRow, q: IngredientPrice)
    requires q.ingredientId == row.id
    ensures RowPrice(Refresh(row, q)) == Ok(Some(q))
  {
  }

  /** As written, the refreshed row reads back as the inserted price row with the old base product. */
  lemma RefreshAsWrittenReadsBack(row: IngredientRow, q: IngredientPrice)
    requires q.ingredientId == row.id
    ensures JoinedRow(RefreshAsWritten(row, q))
    ensures RowPrice(RefreshAsWritten(row, q)) == Ok(Some(q.(baseProductId := row.baseProductId)))
  {
  }

  /** After the refresh the same update needs no further insert: the update is idempotent. */
  lemma RefreshSettlesGate(row: IngredientRow, params: UpdateIngredientParams, converted: Option<real>, id: int, timeStamp: int)
    ensures !NeedsInsert(Refresh(row, InsertedPrice(params, converted, id, timeStamp)), converted, params)
  {
  }

  /**
   * A row whose latest price derives from product 16, updated to derive from
   * product 17: as written, the refreshed row still names product 16, reads
   * back with it, and the same update would insert again.
   */
  lemma StaleBaseProductAfterRefresh()
    ensures var row := IngredientRow(1, "Flour", Some(101), Some(1), None, Some(1.0), Some(1), Some(16));
            var params := UpdateIngredientParams(1, "Flour", None, 1.0, 1, Some(17));
            var q := InsertedPrice(params, None, 102, 2);
            RefreshAsWritten(row, q).baseProductId == Some(16) &&
            RowPrice(RefreshAsWritten(row, q)) != Ok(Some(q)) &&
            NeedsInsert(RefreshAsWritten(row, q), None, params)
  {
  }
}
