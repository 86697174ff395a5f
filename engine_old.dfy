/**
 * The older copy of the service, services/priceCalc.services.go, where it
 * differs from the newer one: the cycle check and the ingredient lookup use a
 * single-row query (a missing ingredient is its "no rows" error), and the
 * row grouping dereferences the price columns whenever the price id is set.
 * The cost walk, the cascade, `GetProductsWithCost` and the usage calls are
 * the same code in both copies and are the methods of `Engine.PriceCalcService`;
 * the older `GetProductsWithIngredients` grouping is `Grouping.GroupProductRowsAsWritten`
 * (corrected: `Grouping.GroupProductRows`).
 */
module EngineOld {
  import opened Types
  import opened CostGraph
  import opened Grouping
  import opened PriceGate
  import opened Engine

  /**
   * `CheckCircularDependency` of the older copy: when it answers, it answers
   * whether the chain from `ingredientId` arrives at `productId`; it always
   * answers when every base product is also an ingredient id.
   */
  method CheckCircularDependency(s: PriceCalcService, productId: int, ingredientId: int) returns (r: Result<bool>)
    ensures r.Err? ==> r.error == NoRows
    ensures r.Ok? ==> (r.value <==> exists k: nat :: 1 <= k && ChainAt(s.G(), ingredientId, k) == Some(productId))
    ensures ingredientId in s.ingredients && BaseIds(s.G()) <= s.ingredients.Keys ==> r.Ok?
  {
    r := s.CheckCircular(productId, ingredientId, {}, NoRows);
    CircularOrFailAgrees(s.G(), productId, ingredientId, {}, NoRows);
    CircularIffChainArrives(s.G(), productId, ingredientId);
  }

  /**
   * `parseIngredientsWithPriceUnitRow` of the older copy: the rows grouped
   * with `IndexFunc`, then the base-product prices resolved inline.
   */
  method ParseIngredientRows(s: PriceCalcService, rows: seq<IngredientRow>) returns (r: Result<seq<IngredientWithPrices>>)
    modifies s`cache
    ensures Refreshes(old(s.cache), s.cache, s.G())
    ensures GroupBy(rows, IngredientRowsOld).Err? ==>
              r == Err(GroupBy(rows, IngredientRowsOld).error) && s.cache == old(s.cache)
    ensures GroupBy(rows, IngredientRowsOld).Ok? && r.Ok? ==>
              ResolvedAll(GroupBy(rows, IngredientRowsOld).value, r.value, old(s.cache), s.G())
    ensures GroupBy(rows, IngredientRowsOld).Ok? && r.Err? ==>
              FailsOnAny(GroupBy(rows, IngredientRowsOld).value, old(s.cache), s.G(), r.error)
  {
    var grouped := GroupIngredientRowsOld(rows);
    if grouped.Err? {
      return grouped;
    }
    r := s.ResolveBaseProductPrices(grouped.value);
  }

  /**
   * `UpdateIngredientWithPrice` of the older copy: a missing ingredient is
   * the single-row query's error; the rest is the newer copy's update as
   * written (`PriceCalcService.SyncIngredientAsWritten`), followed by the
   * older parse of the working row.
   */
  method UpdateIngredientWithPrice(s: PriceCalcService, params: UpdateIngredientParams) returns (r: Result<IngredientWithPrices>)
    requires s.Valid()
    requires params.quantity != 0.0
    modifies s`ingredients, s`prices, s`clock, s`nextId, s`cache
    ensures s.Valid()
    ensures params.id !in old(s.ingredients) ==> r == Err(NoRows) && unchanged(s)
    ensures params.id in old(s.ingredients) && Validate(s.units, params).Err? ==>
              r == Err(Validate(s.units, params).error) && unchanged(s)
    ensures params.id in old(s.ingredients) && Validate(s.units, params).Ok? && UsersOf(old(s.G()), params.id) != {} ==>
              r.Err? && unchanged(s) &&
              exists u :: u in UsersOf(old(s.G()), params.id) && r.error == CommittedRecompute(old(s.G()), u)
    ensures r.Ok? ==> UsersOf(old(s.G()), params.id) == {}
    ensures r.Ok? ==> s.G() == SyncedAsWritten(old(s.G()), s.units, params, old(s.nextId), old(s.clock))
    ensures r.Ok? ==> PriceApplied(s.G(), s.units, params)
    ensures r.Ok? ==> r.value.head == Ingredient(params.id, params.name) && |r.value.items| == 1
    ensures r.Ok? ==> ResolvedFrom(Latest(s.prices, params.id).value.(baseProductId := old(LatestRow(s.G(), params.id)).baseProductId),
                                   r.value.items[0], old(s.cache), s.G())
    ensures r.Err? ==>
              (unchanged(s) ||
               (s.G() == SyncedAsWritten(old(s.G()), s.units, params, old(s.nextId), old(s.clock)) && PriceApplied(s.G(), s.units, params)))
  {
    if params.id !in s.ingredients {
      return Err(NoRows);
    }
    ghost var oldBase := LatestRow(s.G(), params.id).baseProductId;
    var row := s.SyncIngredientAsWritten(params);
    if row.Err? {
      return Err(row.error);
    }
    ghost var mid := s.cache;
    var q := Latest(s.prices, params.id).value;
    assert row.value == RefreshAsWritten(LatestRow(s.G(), params.id), q).(baseProductId := oldBase);
    RefreshAsWrittenReadsBack(row.value, q);
    SingleRowGroups(row.value);
    OldAndNewGroupAlike([row.value]);
    var out := ParseIngredientRows(s, [row.value]);
    RefreshesTrans(old(s.cache), mid, s.cache, s.G());
    if out.Err? {
      return Err(out.error);
    }
    assert ResolvedItems([q.(baseProductId := oldBase)], out.value[0].items, mid, s.G());
    ResolvedFromWeakens(q.(baseProductId := oldBase), out.value[0].items[0], old(s.cache), mid, s.G());
    return Ok(out.value[0]);
  }
}
