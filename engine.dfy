/**
 * The price-calculation service of services/priceCalc_services.go over a
 * store held in fields: the unit table loaded at start-up, ingredient names,
 * the price history, the usages, the products and the product-cost cache.
 * Each method is one service call; the recursive walks are proved equal to
 * their specifications in `CostGraph`.
 */
module Engine {
  import opened Types
  import opened GoUtils
  import opened CostGraph
  import opened Grouping
  import opened PriceGate

  /** The fresh cost of every product in `s`. */
  function FreshCosts(g: Graph, s: set<int>): (m: map<int, real>)
    ensures m.Keys == s
  {
    map id | id in s :: FreshValue(g, id)
  }

  /** Every cached cost is the cost a fresh walk of the store computes. */
  ghost predicate CacheFresh(cache: map<int, real>, g: Graph)
  {
    forall id :: id in cache ==> FreshCost(g, id).Ok? && cache[id] == FreshCost(g, id).value
  }

  /**
   * `after` keeps every key of `before`; each of its entries is the old one or
   * the cost a successful fresh walk of `g` computes.
   */
  ghost predicate Refreshes(before: map<int, real>, after: map<int, real>, g: Graph)
  {
    before.Keys <= after.Keys &&
    forall id :: id in after ==>
      (id in before && after[id] == before[id]) || (FreshCost(g, id).Ok? && after[id] == FreshCost(g, id).value)
  }

  /** Refreshing a fresh cache leaves it fresh. */
  lemma RefreshKeepsFresh(before: map<int, real>, after: map<int, real>, g: Graph)
    requires CacheFresh(before, g) && Refreshes(before, after, g)
    ensures CacheFresh(after, g)
  {
  }

  /**
   * A price row after base-price resolution: a row with a base product takes
   * that product's cost, read from the cache as it stood (`cache`) or freshly
   * computed; a product missing from `cache` always gets the fresh cost.
   */
  ghost predicate ResolvedFrom(q: IngredientPrice, r: IngredientPrice, cache: map<int, real>, g: Graph)
  {
    if q.baseProductId.None? then r == q
    else
      r == q.(price := r.price) && r.price.Some? &&
      (r.price.value == FreshValue(g, q.baseProductId.value) ||
       (q.baseProductId.value in cache && r.price.value == cache[q.baseProductId.value]))
  }

  ghost predicate ResolvedItems(items: seq<IngredientPrice>, out: seq<IngredientPrice>, cache: map<int, real>, g: Graph)
  {
    |out| == |items| && forall j :: 0 <= j < |items| ==> ResolvedFrom(items[j], out[j], cache, g)
  }

  /** Every entry keeps its ingredient and has each of its price rows resolved. */
  ghost predicate ResolvedAll(ings: seq<IngredientWithPrices>, out: seq<IngredientWithPrices>, cache: map<int, real>, g: Graph)
  {
    |out| == |ings| &&
    forall i :: 0 <= i < |ings| ==> out[i].head == ings[i].head && ResolvedItems(ings[i].items, out[i].items, cache, g)
  }

  /** The products with a usage of ingredient `i`. */
  function UsersOf(g: Graph, i: int): set<int>
  {
    set u | u in g.usages && u.ingredientId == i :: u.productId
  }

  /** The ingredient-with-latest-price row the store yields for ingredient `id`. */
  function LatestRow(g: Graph, id: int): (row: IngredientRow)
    requires id in g.ingredients
    ensures JoinedRow(row)
  {
    match Latest(g.prices, id)
    case None => IngredientRow(id, g.ingredients[id], None, None, None, None, None, None)
    case Some(q) => IngredientRow(id, g.ingredients[id], Some(q.id), Some(q.timeStamp), q.price,
                                  Some(q.quantity), Some(q.unitId), q.baseProductId)
  }

  /** Reading the joined row back gives the ingredient's latest price row. */
  lemma LatestRowReadsBack(g: Graph, id: int)
    requires id in g.ingredients
    ensures RowPrice(LatestRow(g, id)) == Ok(Latest(g.prices, id))
  {
  }

  /** With a fresh cache the resolved prices are exactly the fresh costs of their base products. */
  lemma ResolvedUnderFreshCache(q: IngredientPrice, r: IngredientPrice, cache: map<int, real>, g: Graph)
    requires CacheFresh(cache, g)
    requires ResolvedFrom(q, r, cache, g)
    requires q.baseProductId.Some?
    ensures r.price == Some(FreshValue(g, q.baseProductId.value))
  {
  }

  /** Resolving against a cache that refreshes `before` is resolving against `before`. */
  lemma ResolvedFromWeakens(q: IngredientPrice, r: IngredientPrice, before: map<int, real>, mid: map<int, real>, g: Graph)
    requires Refreshes(before, mid, g)
    requires ResolvedFrom(q, r, mid, g)
    ensures ResolvedFrom(q, r, before, g)
  {
  }

  lemma RefreshesTrans(a: map<int, real>, b: map<int, real>, c: map<int, real>, g: Graph)
    requires Refreshes(a, b, g) && Refreshes(b, c, g)
    ensures Refreshes(a, c, g)
  {
  }

  /** A set with no members is the empty set. */
  lemma NoMembersEmpty(s: set<int>)
    ensures (forall x :: x !in s) ==> s == {}
  {
    if forall x :: x !in s {
      assert s == {};
    }
  }

  lemma MemberOfNonEmpty(s: set<int>)
    requires s != {}
    ensures exists x :: x in s
  {
    NoMembersEmpty(s);
  }

  /** Caching the fresh cost of one more product extends the cached set by that product. */
  lemma CacheGrows(base: map<int, real>, g: Graph, done: set<int>, id: int)
    ensures (base + FreshCosts(g, done))[id := FreshValue(g, id)] == base + FreshCosts(g, done + {id})
  {
  }

  /** Some price row names a base product missing from `cache` whose fresh walk fails with `e`. */
  ghost predicate FailsOn(items: seq<IngredientPrice>, cache: map<int, real>, g: Graph, e: Error)
  {
    exists j :: 0 <= j < |items| && items[j].baseProductId.Some? &&
      items[j].baseProductId.value !in cache && FreshCost(g, items[j].baseProductId.value) == Err(e)
  }

  ghost predicate FailsOnAny(ings: seq<IngredientWithPrices>, cache: map<int, real>, g: Graph, e: Error)
  {
    exists i :: 0 <= i < |ings| && FailsOn(ings[i].items, cache, g, e)
  }

  /** The cost `GetProductsWithCost` reports: the cached one as the query read it, else a fresh walk's. */
  function ReportedCost(snapshot: map<int, real>, g: Graph, id: int): (c: real)
    ensures id in snapshot ==> c == snapshot[id]
    ensures id !in snapshot ==> c == FreshValue(g, id)
  {
    if id in snapshot then snapshot[id] else FreshValue(g, id)
  }

  /** Over a fresh cache, every reported cost is the cost a fresh walk computes. */
  lemma ReportedIsFresh(snapshot: map<int, real>, g: Graph, id: int)
    requires CacheFresh(snapshot, g)
    ensures ReportedCost(snapshot, g, id) == FreshValue(g, id)
  {
  }

  /**
   * The store after a validated `UpdateIngredientWithPrice` commits: the new
   * name, and a price row stamped `timeStamp` with id `id` appended exactly
   * when the gate asks for one.
   */
  function Synced(g: Graph, units: map<int, Unit>, params: UpdateIngredientParams, id: int, timeStamp: int): Graph
    requires params.id in g.ingredients && params.unitId in units
    requires params.quantity != 0.0 && units[params.unitId].factor != 0.0
  {
    var converted := ConvertedPrice(params, units[params.unitId]);
    var named := g.(ingredients := g.ingredients[params.id := params.name]);
    if NeedsInsert(LatestRow(g, params.id), converted, params)
    then named.(prices := g.prices + [InsertedPrice(params, converted, id, timeStamp)])
    else named
  }

  /** The store after a validated update commits as written: the new name, and always a new price row. */
  function SyncedAsWritten(g: Graph, units: map<int, Unit>, params: UpdateIngredientParams, id: int, timeStamp: int): Graph
    requires params.id in g.ingredients && params.unitId in units
    requires params.quantity != 0.0 && units[params.unitId].factor != 0.0
  {
    g.(ingredients := g.ingredients[params.id := params.name],
       prices := g.prices + [InsertedPrice(params, ConvertedPrice(params, units[params.unitId]), id, timeStamp)])
  }

  /**
   * Where the intended gate inserts, the as-written commit is the intended
   * one; where it does not, the as-written commit holds one extra price row,
   * a copy of the latest one under a new id and time stamp.
   */
  lemma AsWrittenCommitsExtraRow(g: Graph, units: map<int, Unit>, params: UpdateIngredientParams, id: int, timeStamp: int)
    requires params.id in g.ingredients && params.unitId in units
    requires params.quantity != 0.0 && units[params.unitId].factor != 0.0
    ensures var converted := ConvertedPrice(params, units[params.unitId]);
            NeedsInsert(LatestRow(g, params.id), converted, params) ==>
              SyncedAsWritten(g, units, params, id, timeStamp) == Synced(g, units, params, id, timeStamp)
    ensures var converted := ConvertedPrice(params, units[params.unitId]);
            var q := InsertedPrice(params, converted, id, timeStamp);
            !NeedsInsert(LatestRow(g, params.id), converted, params) ==>
              SyncedAsWritten(g, units, params, id, timeStamp)
                == Synced(g, units, params, id, timeStamp).(prices := g.prices + [q]) &&
              Latest(g.prices, params.id) == Some(q.(id := Latest(g.prices, params.id).value.id,
                                                      timeStamp := Latest(g.prices, params.id).value.timeStamp))
  {
    var converted := ConvertedPrice(params, units[params.unitId]);
    if !NeedsInsert(LatestRow(g, params.id), converted, params) {
      assert Latest(g.prices, params.id).Some?;
    }
  }

  /**
   * What the as-written recomputation of product `u` ends in: its walk reads
   * the committed store `g` and fails as that walk does, and a successful
   * walk's cost insert is refused while the update's transaction holds the
   * write lock.
   */
  function CommittedRecompute(g: Graph, u: int): (e: Error)
    ensures FreshCost(g, u).Err? ==> e == FreshCost(g, u).error
    ensures FreshCost(g, u).Ok? ==> e == DatabaseLocked
  {
    if FreshCost(g, u).Err? then FreshCost(g, u).error else DatabaseLocked
  }

  /** The store holds the update: the new name and a latest price row agreeing with the converted input. */
  ghost predicate PriceApplied(g: Graph, units: map<int, Unit>, params: UpdateIngredientParams)
  {
    params.id in g.ingredients && g.ingredients[params.id] == params.name &&
    params.unitId in units && params.quantity != 0.0 && units[params.unitId].factor != 0.0 &&
    Latest(g.prices, params.id).Some? &&
    Latest(g.prices, params.id).value.price == ConvertedPrice(params, units[params.unitId]) &&
    Latest(g.prices, params.id).value.baseProductId == params.baseProductId &&
    Latest(g.prices, params.id).value.quantity == params.quantity &&
    Latest(g.prices, params.id).value.unitId == params.unitId
  }

  /** A committed update is in the store, whether or not the gate inserted a row. */
  lemma SyncApplies(g: Graph, units: map<int, Unit>, params: UpdateIngredientParams, id: int, timeStamp: int)
    requires params.id in g.ingredients && params.unitId in units
    requires params.quantity != 0.0 && units[params.unitId].factor != 0.0
    ensures PriceApplied(Synced(g, units, params, id, timeStamp), units, params)
  {
    var converted := ConvertedPrice(params, units[params.unitId]);
    if !NeedsInsert(LatestRow(g, params.id), converted, params) {
      assert Latest(g.prices, params.id).Some?;
    }
  }

  /** Once the update is in the store, the same update again inserts no price row. */
  lemma AppliedSettlesGate(g: Graph, units: map<int, Unit>, params: UpdateIngredientParams)
    requires PriceApplied(g, units, params)
    ensures !NeedsInsert(LatestRow(g, params.id), ConvertedPrice(params, units[params.unitId]), params)
  {
  }

  /** The working row after the gate is the joined row the committed store yields. */
  lemma SyncedRow(g: Graph, units: map<int, Unit>, params: UpdateIngredientParams, id: int, timeStamp: int)
    requires params.id in g.ingredients && params.unitId in units
    requires params.quantity != 0.0 && units[params.unitId].factor != 0.0
    ensures var converted := ConvertedPrice(params, units[params.unitId]);
            var row := LatestRow(g, params.id).(name := params.name);
            LatestRow(Synced(g, units, params, id, timeStamp), params.id)
            == if NeedsInsert(LatestRow(g, params.id), converted, params)
               then Refresh(row, InsertedPrice(params, converted, id, timeStamp))
               else row
  {
  }

  /** The name does not enter the gate: renaming first gives the same committed store. */
  lemma SyncedAfterRename(g: Graph, units: map<int, Unit>, params: UpdateIngredientParams, id: int, timeStamp: int)
    requires params.id in g.ingredients && params.unitId in units
    requires params.quantity != 0.0 && units[params.unitId].factor != 0.0
    ensures var renamed := g.(ingredients := g.ingredients[params.id := params.name]);
            Synced(renamed, units, params, id, timeStamp) == Synced(g, units, params, id, timeStamp)
  {
    var renamed := g.(ingredients := g.ingredients[params.id := params.name]);
    assert LatestRow(renamed, params.id) == LatestRow(g, params.id).(name := params.name);
    assert renamed.ingredients[params.id := params.name] == g.ingredients[params.id := params.name];
  }

  /** Appending a row stamped after every other keeps the history time-ordered. */
  lemma AppendKeepsOrder(prices: seq<IngredientPrice>, q: IngredientPrice)
    requires TimeOrdered(prices)
    requires forall p :: p in prices ==> p.timeStamp < q.timeStamp
    ensures TimeOrdered(prices + [q])
  {
    forall j, k | 0 <= j < k < |prices + [q]|
      ensures (prices + [q])[j].timeStamp < (prices + [q])[k].timeStamp
    {
      if k == |prices| {
        assert prices[j] in prices;
      }
    }
  }

  /** A single joined row groups into one entry with its price row, if it has one. */
  lemma SingleRowGroups(row: IngredientRow)
    requires JoinedRow(row)
    ensures GroupBy([row], IngredientRows) == Ok([Grouped(Ingredient(row.id, row.name), OptSeq(RowPrice(row).value))])
  {
    assert [row][..0] == [];
    assert IngredientRows.item(row) == RowPrice(row);
    var rows := [row];
    var empty: seq<IngredientWithPrices> := [];
    GroupByStep(rows, IngredientRows, 0);
    assert rows[..1] == rows && rows[..0] == [];
    assert GroupBy(rows[..0], IngredientRows) == Ok(empty);
    assert IngredientRows.item(row) == RowPrice(row) && RowPrice(row).Ok?;
    assert FirstIndex(empty, HeadIs(IngredientRows.headKey, IngredientRows.key(row))) == None;
    AddRowAppended(empty, row, IngredientRows, RowPrice(row).value);
    assert IngredientRows.head(row) == Ingredient(row.id, row.name);
    var entry := Grouped(Ingredient(row.id, row.name), OptSeq(RowPrice(row).value));
    assert empty + [entry] == [entry];
  }

  /** Selects the usage with id `id`. */
  function UsageIs(id: int): IngredientUsage -> bool
  {
    (u: IngredientUsage) => u.id == id
  }

  class PriceCalcService {
    /** The unit table, read once when the service starts. */
    const units: map<int, Unit>
    var ingredients: map<int, string>
    var prices: seq<IngredientPrice>
    var usages: seq<IngredientUsage>
    var products: seq<Product>
    /** The product_cost table. */
    var cache: map<int, real>
    /** The time stamp the next price row gets. */
    var clock: int
    /** The id the next inserted row gets. */
    var nextId: int

    /**
     * Unit factors are positive (the unit form rejects others) and price rows
     * are stamped in insertion order, so the last row of an ingredient is the
     * one with the highest time stamp.
     */
    ghost predicate Valid()
      reads this`prices, this`clock
    {
      (forall id :: id in units ==> units[id].factor > 0.0) &&
      TimeOrdered(prices) && (forall q :: q in prices ==> q.timeStamp < clock)
    }

    function G(): Graph
      reads this`ingredients, this`prices, this`usages
    {
      Graph(ingredients, prices, usages)
    }

    constructor (units: map<int, Unit>, ingredients: map<int, string>, prices: seq<IngredientPrice>,
                 usages: seq<IngredientUsage>, products: seq<Product>, cache: map<int, real>, clock: int, nextId: int)
      ensures this.units == units && this.ingredients == ingredients && this.prices == prices
      ensures this.usages == usages && this.products == products && this.cache == cache
      ensures this.clock == clock && this.nextId == nextId
      ensures ((forall id :: id in units ==> units[id].factor > 0.0) && TimeOrdered(prices) &&
               (forall q :: q in prices ==> q.timeStamp < clock)) ==> Valid()
    {
      this.units := units;
      this.ingredients := ingredients;
      this.prices := prices;
      this.usages := usages;
      this.products := products;
      this.cache := cache;
      this.clock := clock;
      this.nextId := nextId;
    }

    // ----- cycle check -----

    /**
     * `checkCircular`: follows the base product of the latest price of `cur`,
     * feeding it back in as the next ingredient id. An id with no ingredient
     * row fails with `missing`: this copy indexes the empty query result,
     * the older copy gets its single-row query's "no rows" error.
     */
    method CheckCircular(target: int, cur: int, visited: set<int>, missing: Error) returns (r: Result<bool>)
      ensures r == CircularOrFail(G(), target, cur, visited, missing)
      decreases BaseIds(G()) + {cur} - visited
    {
      if cur in visited {
        return Ok(false);
      }
      if cur !in ingredients {
        return Err(missing);
      }
      var latest := Latest(prices, cur);
      if latest.None? || latest.value.baseProductId.None? {
        return Ok(false);
      }
      var b := latest.value.baseProductId.value;
      if b == target {
        return Ok(true);
      }
      r := CheckCircular(target, b, visited + {cur}, missing);
    }

    /**
     * `CheckCircularDependency`: when it answers, it answers whether the chain
     * from `ingredientId` arrives at `productId`; a chain reaching an id that
     * is no ingredient fails on `ingredients[0]`, so it always answers when
     * every base product is also an ingredient id.
     */
    method CheckCircularDependency(productId: int, ingredientId: int) returns (r: Result<bool>)
      ensures r.Err? ==> r.error == IndexOutOfRange
      ensures r.Ok? ==> (r.value <==> exists k: nat :: 1 <= k && ChainAt(G(), ingredientId, k) == Some(productId))
      ensures ingredientId in ingredients && BaseIds(G()) <= ingredients.Keys ==> r.Ok?
    {
      r := CheckCircular(productId, ingredientId, {}, IndexOutOfRange);
      CircularOrFailAgrees(G(), productId, ingredientId, {}, IndexOutOfRange);
      CircularIffChainArrives(G(), productId, ingredientId);
    }

    // ----- cost walk and cascade -----

    /**
     * `calculateProductCost(p, visited)`: the outcome and the state the shared
     * visited map is left in are those of the walk `Walk`.
     */
    method CalculateProductCost(p: int, visited: set<int>) returns (cost: Result<real>, visitedOut: set<int>)
      ensures Walked(cost, visitedOut) == Walk(G(), p, visited)
      decreases BaseIds(G()) + {p} - visited, 0
    {
      if p in visited {
        return Err(CircularDependency(p)), visited;
      }
      visitedOut := visited + {p};
      var rows := Rows(G(), p);
      var total := 0.0;
      var i := 0;
      while i < |rows|
        invariant 0 <= i <= |rows|
        invariant visited + {p} <= visitedOut
        invariant Walk(G(), p, visited) == WalkRows(G(), p, i, visitedOut, total)
      {
        var row := rows[i];
        WalkRowsStep(G(), p, i, visitedOut, total);
        if row.baseProductId.Some? {
          var sub, subVisited := CalculateProductCost(row.baseProductId.value, visitedOut);
          if sub.Err? {
            return sub, subVisited;
          }
          total := Add(total, sub.value, row.quantity);
          visitedOut := subVisited;
        } else if row.price.Some? {
          total := Add(total, row.price.value, row.quantity);
        } else {
          return Err(NoPriceFound(row.ingredientId)), visitedOut;
        }
        i := i + 1;
      }
      cost := Ok(total);
    }

    /**
     * `calculateProductCost` as evidently intended: `path` holds only the
     * products above `p`, so a product two branches share is costed twice
     * rather than reported circular.
     */
    method CalculateProductCostOnPath(p: int, path: set<int>) returns (cost: Result<real>)
      ensures cost == PathWalk(G(), p, path)
      decreases BaseIds(G()) + {p} - path, 0
    {
      if p in path {
        return Err(CircularDependency(p));
      }
      var below := path + {p};
      var rows := Rows(G(), p);
      var total := 0.0;
      var i := 0;
      while i < |rows|
        invariant 0 <= i <= |rows|
        invariant PathWalk(G(), p, path) == PathWalkRows(G(), p, i, below, total)
      {
        var row := rows[i];
        PathWalkRowsStep(G(), p, i, below, total);
        if row.baseProductId.Some? {
          var sub := CalculateProductCostOnPath(row.baseProductId.value, below);
          if sub.Err? {
            return sub;
          }
          total := Add(total, sub.value, row.quantity);
        } else if row.price.Some? {
          total := Add(total, row.price.value, row.quantity);
        } else {
          return Err(NoPriceFound(row.ingredientId));
        }
        i := i + 1;
      }
      cost := Ok(total);
    }

    /**
     * The body of `UpdateProductCost`: a fresh walk of `p`, its cost cached,
     * then every other product the walk touched recomputed from scratch and
     * cached. `primary` is the cost of `p`; `last` is the last cost the loop
     * computed, which is what the source returns.
     */
    method Cascade(p: int) returns (primary: Result<real>, last: real)
      modifies this`cache
      ensures primary == FreshCost(G(), p)
      ensures primary.Ok? ==> cache == old(cache) + FreshCosts(G(), Walk(G(), p, {}).visited)
      ensures primary.Err? ==> cache == old(cache)
      ensures primary.Ok? && Walk(G(), p, {}).visited == {p} ==> last == primary.value
      ensures primary.Ok? && Walk(G(), p, {}).visited != {p} ==>
                exists q :: q in Walk(G(), p, {}).visited - {p} && last == FreshValue(G(), q)
    {
      var cost, visited := CalculateProductCost(p, {});
      if cost.Err? {
        return cost, 0.0;
      }
      WalkTouchedFresh(G(), p, {});
      cache := cache[p := cost.value];
      last := cost.value;
      var rest := visited - {p};
      assert visited - rest == {p};
      while rest != {}
        invariant rest <= visited - {p}
        invariant cache == old(cache) + FreshCosts(G(), visited - rest)
        invariant rest == visited - {p} ==> last == cost.value
        invariant rest != visited - {p} ==> exists q :: q in visited - {p} && last == FreshValue(G(), q)
        decreases rest
      {
        MemberOfNonEmpty(rest);
        var id :| id in rest;
        assert id in Walk(G(), p, {}).visited - {};
        var c, _ := CalculateProductCost(id, {});
        CacheGrows(old(cache), G(), visited - rest, id);
        cache := cache[id := c.value];
        last := c.value;
        assert visited - (rest - {id}) == (visited - rest) + {id};
        rest := rest - {id};
      }
      assert visited - rest == visited;
      primary := cost;
    }

    /**
     * `UpdateProductCost`, returning the cost of the product asked for. The
     * cache gets a fresh cost for `p` and for every product its walk touched;
     * no other entry changes, and a fresh cache stays fresh.
     */
    method UpdateProductCost(p: int) returns (r: Result<real>)
      modifies this`cache
      ensures r == FreshCost(G(), p)
      ensures r.Ok? ==> cache == old(cache) + FreshCosts(G(), Walk(G(), p, {}).visited)
      ensures r.Err? ==> cache == old(cache)
      ensures Refreshes(old(cache), cache, G())
      ensures CacheFresh(old(cache), G()) ==> CacheFresh(cache, G())
    {
      var last;
      r, last := Cascade(p);
      if r.Ok? {
        WalkTouchedFresh(G(), p, {});
      }
    }

    /**
     * `UpdateProductCost` as written: the cost returned is that of the last
     * product the loop recomputed, which is `p` only when its walk touched no
     * other product.
     */
    method UpdateProductCostAsWritten(p: int) returns (r: Result<real>)
      modifies this`cache
      ensures r.Err? <==> FreshCost(G(), p).Err?
      ensures r.Ok? && Walk(G(), p, {}).visited == {p} ==> r == FreshCost(G(), p)
      ensures r.Ok? && Walk(G(), p, {}).visited != {p} ==>
                exists q :: q in Walk(G(), p, {}).visited - {p} && r.value == FreshValue(G(), q)
      ensures r.Ok? ==> cache == old(cache) + FreshCosts(G(), Walk(G(), p, {}).visited)
      ensures r.Err? ==> cache == old(cache)
    {
      var primary, last := Cascade(p);
      if primary.Err? {
        return primary;
      }
      return Ok(last);
    }
  
    // ----- lazy cache fill -----

    /**
     * One price row of `resolveBaseProductPrices`: a row with a base product
     * takes that product's cached cost or, when the cache has none, the cost
     * `UpdateProductCost` computes and caches.
     */
    method ResolvePrice(q: IngredientPrice) returns (r: Result<IngredientPrice>)
      modifies this`cache
      ensures Refreshes(old(cache), cache, G())
      ensures r.Ok? ==> ResolvedFrom(q, r.value, old(cache), G())
      ensures r.Err? ==> FailsOn([q], old(cache), G(), r.error)
      ensures q.baseProductId.Some? && q.baseProductId.value in old(cache) ==>
                r == Ok(q.(price := Some(old(cache)[q.baseProductId.value]))) && cache == old(cache)
      ensures q.baseProductId.Some? && q.baseProductId.value !in old(cache) && r.Ok? ==>
                r.value == q.(price := Some(FreshValue(G(), q.baseProductId.value)))
    {
      if q.baseProductId.None? {
        return Ok(q);
      }
      var b := q.baseProductId.value;
      if b in cache {
        return Ok(q.(price := Some(cache[b])));
      }
      var cost := UpdateProductCost(b);
      if cost.Err? {
        assert [q][0] == q;
        return Err(cost.error);
      }
      r := Ok(q.(price := Some(cost.value)));
    }

    /** The price rows of one ingredient, resolved in order; the first failure ends the loop. */
    method ResolveItems(items: seq<IngredientPrice>) returns (r: Result<seq<IngredientPrice>>)
      modifies this`cache
      ensures Refreshes(old(cache), cache, G())
      ensures r.Ok? ==> ResolvedItems(items, r.value, old(cache), G())
      ensures r.Err? ==> FailsOn(items, old(cache), G(), r.error)
    {
      var out := items;
      var j := 0;
      while j < |items|
        invariant 0 <= j <= |items| && |out| == |items|
        invariant Refreshes(old(cache), cache, G())
        invariant forall k :: 0 <= k < j ==> ResolvedFrom(items[k], out[k], old(cache), G())
      {
        ghost var mid := cache;
        var p := ResolvePrice(items[j]);
        RefreshesTrans(old(cache), mid, cache, G());
        if p.Err? {
          assert [items[j]][0] == items[j];
          return Err(p.error);
        }
        ResolvedFromWeakens(items[j], p.value, old(cache), mid, G());
        out := out[j := p.value];
        j := j + 1;
      }
      return Ok(out);
    }

    /**
     * `resolveBaseProductPrices`: every price row with a base product gets
     * that product's cost (cached, or computed and cached when missing).
     */
    method ResolveBaseProductPrices(ings: seq<IngredientWithPrices>) returns (r: Result<seq<IngredientWithPrices>>)
      modifies this`cache
      ensures Refreshes(old(cache), cache, G())
      ensures r.Ok? ==> ResolvedAll(ings, r.value, old(cache), G())
      ensures r.Err? ==> FailsOnAny(ings, old(cache), G(), r.error)
    {
      var out := ings;
      var i := 0;
      while i < |ings|
        invariant 0 <= i <= |ings| && |out| == |ings|
        invariant Refreshes(old(cache), cache, G())
        invariant forall k :: 0 <= k < i ==>
                    out[k].head == ings[k].head && ResolvedItems(ings[k].items, out[k].items, old(cache), G())
      {
        ghost var mid := cache;
        var items := ResolveItems(ings[i].items);
        RefreshesTrans(old(cache), mid, cache, G());
        if items.Err? {
          return Err(items.error);
        }
        forall j | 0 <= j < |ings[i].items|
          ensures ResolvedFrom(ings[i].items[j], items.value[j], old(cache), G())
        {
          ResolvedFromWeakens(ings[i].items[j], items.value[j], old(cache), mid, G());
        }
        out := out[i := ings[i].(items := items.value)];
        i := i + 1;
      }
      return Ok(out);
    }

    /**
     * `parseIngredientsWithPriceUnitRow` (newer copy): the rows grouped per
     * ingredient, then their base-product prices resolved.
     */
    method ParseIngredientRows(rows: seq<IngredientRow>) returns (r: Result<seq<IngredientWithPrices>>)
      modifies this`cache
      ensures Refreshes(old(cache), cache, G())
      ensures GroupBy(rows, IngredientRows).Err? ==> r == Err(GroupBy(rows, IngredientRows).error) && cache == old(cache)
      ensures GroupBy(rows, IngredientRows).Ok? && r.Ok? ==>
                ResolvedAll(GroupBy(rows, IngredientRows).value, r.value, old(cache), G())
      ensures GroupBy(rows, IngredientRows).Ok? && r.Err? ==>
                FailsOnAny(GroupBy(rows, IngredientRows).value, old(cache), G(), r.error)
    {
      var grouped := GroupIngredientRows(rows);
      if grouped.Err? {
        return grouped;
      }
      r := ResolveBaseProductPrices(grouped.value);
    }

    /**
     * `GetProductsWithCost`: one entry per product, in order, with the cost
     * the query read from the cache; a product without one gets its cost
     * computed and cached first.
     */
    method GetProductsWithCost() returns (r: Result<seq<ProductWithCost>>)
      modifies this`cache
      ensures Refreshes(old(cache), cache, G())
      ensures r.Ok? ==> |r.value| == |products|
      ensures r.Ok? ==> forall k :: 0 <= k < |products| ==>
                r.value[k] == ProductWithCost(products[k], ReportedCost(old(cache), G(), products[k].id))
      ensures r.Ok? ==> forall k :: 0 <= k < |products| ==> products[k].id in cache
      ensures r.Err? ==> exists k ::
                0 <= k < |products| && products[k].id !in old(cache) && FreshCost(G(), products[k].id) == Err(r.error)
    {
      var snapshot := cache;
      var out: seq<ProductWithCost> := [];
      var k := 0;
      while k < |products|
        invariant 0 <= k <= |products| && |out| == k
        invariant snapshot == old(cache)
        invariant Refreshes(snapshot, cache, G())
        invariant forall n :: 0 <= n < k ==>
                    out[n] == ProductWithCost(products[n], ReportedCost(snapshot, G(), products[n].id))
        invariant forall n :: 0 <= n < k ==> products[n].id in cache
      {
        var product := products[k];
        var cost: real;
        if product.id in snapshot {
          cost := snapshot[product.id];
        } else {
          ghost var mid := cache;
          var computed := UpdateProductCost(product.id);
          RefreshesTrans(snapshot, mid, cache, G());
          if computed.Err? {
            assert 0 <= k < |products| && products[k].id !in old(cache) && FreshCost(G(), products[k].id) == Err(computed.error);
            return Err(computed.error);
          }
          cost := computed.value;
        }
        out := out + [ProductWithCost(product, cost)];
        k := k + 1;
      }
      return Ok(out);
    }

    // ----- ingredient update -----

    /**
     * `UpdateProductCost` for every product in `ids`, in map order; the first
     * failure ends the loop and is returned.
     */
    method RecomputeAll(ids: set<int>) returns (err: Option<Error>)
      modifies this`cache
      ensures Refreshes(old(cache), cache, G())
      ensures err.None? ==> forall u :: u in ids ==> u in cache && FreshCost(G(), u).Ok? && cache[u] == FreshCost(G(), u).value
      ensures err.Some? ==> exists u :: u in ids && FreshCost(G(), u) == Err(err.value)
    {
      var pending := ids;
      while pending != {}
        invariant pending <= ids
        invariant Refreshes(old(cache), cache, G())
        invariant forall u :: u in ids - pending ==> u in cache && FreshCost(G(), u).Ok? && cache[u] == FreshCost(G(), u).value
        decreases pending
      {
        MemberOfNonEmpty(pending);
        var id :| id in pending;
        ghost var mid := cache;
        var c := UpdateProductCost(id);
        RefreshesTrans(old(cache), mid, cache, G());
        if c.Err? {
          return Some(c.error);
        }
        pending := pending - {id};
      }
      return None;
    }

    /**
     * The price part of `UpdateIngredientWithPrice` once the name is updated
     * and the input validated: the joined row is read, the price converted,
     * and a price row inserted and the working row refreshed when the gate
     * asks for it.
     */
    method ApplyPrice(params: UpdateIngredientParams) returns (row: IngredientRow)
      requires Valid()
      requires params.id in ingredients && ingredients[params.id] == params.name
      requires params.quantity != 0.0 && Validate(units, params).Ok?
      modifies this`prices, this`clock, this`nextId
      ensures Valid()
      ensures G() == Synced(old(G()), units, params, old(nextId), old(clock))
      ensures row == LatestRow(G(), params.id) && PriceApplied(G(), units, params)
    {
      var g0 := G();
      var id, ts := nextId, clock;
      SyncApplies(g0, units, params, id, ts);
      SyncedRow(g0, units, params, id, ts);
      assert g0.ingredients[params.id := params.name] == g0.ingredients;
      row := LatestRow(g0, params.id);
      assert row.name == params.name;
      var converted := ConvertedPrice(params, units[params.unitId]);
      if NeedsInsert(row, converted, params) {
        var q := InsertedPrice(params, converted, nextId, clock);
        AppendKeepsOrder(prices, q);
        prices := prices + [q];
        nextId := nextId + 1;
        clock := clock + 1;
        row := Refresh(row, q);
        assert G() == Synced(g0, units, params, id, ts);
      } else {
        assert G() == Synced(g0, units, params, id, ts);
      }
    }

    /**
     * `UpdateIngredientWithPrice` up to the commit, as evidently intended: the
     * name update, the validation, the gated price insert and the
     * recomputation of every product using the ingredient all run in one
     * transaction, so the recomputation reads the update and a failure rolls
     * back names, prices and cached costs alike. The result is the working row.
     */
    method SyncIngredient(params: UpdateIngredientParams) returns (r: Result<IngredientRow>)
      requires Valid()
      requires params.quantity != 0.0
      modifies this`ingredients, this`prices, this`clock, this`nextId, this`cache
      ensures Valid()
      ensures r.Err? ==> ingredients == old(ingredients) && prices == old(prices) && cache == old(cache)
      ensures r.Err? ==> clock == old(clock) && nextId == old(nextId)
      ensures params.id !in old(ingredients) ==> r == Err(IngredientNotFound(params.id))
      ensures params.id in old(ingredients) && Validate(units, params).Err? ==> r == Err(Validate(units, params).error)
      ensures r.Ok? ==> params.id in old(ingredients) && Validate(units, params).Ok?
      ensures r.Ok? ==> G() == Synced(old(G()), units, params, old(nextId), old(clock))
      ensures r.Ok? ==> r.value == LatestRow(G(), params.id) && PriceApplied(G(), units, params)
      ensures r.Ok? ==> Refreshes(old(cache), cache, G())
      ensures r.Ok? ==> forall u :: u in UsersOf(G(), params.id) ==>
                u in cache && FreshCost(G(), u).Ok? && cache[u] == FreshCost(G(), u).value
      ensures params.id in old(ingredients) && Validate(units, params).Ok? && r.Err? ==>
                var g := Synced(old(G()), units, params, old(nextId), old(clock));
                exists u :: u in UsersOf(g, params.id) && FreshCost(g, u) == Err(r.error)
    {
      if params.id !in ingredients {
        return Err(IngredientNotFound(params.id));
      }
      var savedIngredients, savedPrices, savedClock, savedNextId, savedCache := ingredients, prices, clock, nextId, cache;
      var g0 := G();
      if ingredients[params.id] != params.name {
        ingredients := ingredients[params.id := params.name];
      }
      assert G() == g0.(ingredients := g0.ingredients[params.id := params.name]);
      var unit := Validate(units, params);
      if unit.Err? {
        ingredients := savedIngredients;
        return Err(unit.error);
      }
      SyncedAfterRename(g0, units, params, savedNextId, savedClock);
      var row := ApplyPrice(params);
      var err := RecomputeAll(UsersOf(G(), params.id));
      if err.Some? {
        ingredients, prices, clock, nextId, cache := savedIngredients, savedPrices, savedClock, savedNextId, savedCache;
        return Err(err.value);
      }
      return Ok(row);
    }

    /**
     * `UpdateIngredientWithPrice`, as evidently intended: the update, then the
     * working row parsed and resolved as `GetIngredientWithPrice` would return
     * it. A failure while resolving comes after the commit, so the update
     * stays applied.
     */
    method UpdateIngredientWithPrice(params: UpdateIngredientParams) returns (r: Result<IngredientWithPrices>)
      requires Valid()
      requires params.quantity != 0.0
      modifies this`ingredients, this`prices, this`clock, this`nextId, this`cache
      ensures Valid()
      ensures params.id !in old(ingredients) ==> r == Err(IngredientNotFound(params.id)) && unchanged(this)
      ensures params.id in old(ingredients) && Validate(units, params).Err? ==>
                r == Err(Validate(units, params).error) && unchanged(this)
      ensures r.Ok? ==> G() == Synced(old(G()), units, params, old(nextId), old(clock)) && PriceApplied(G(), units, params)
      ensures r.Ok? ==> r.value.head == Ingredient(params.id, params.name) && |r.value.items| == 1
      ensures r.Ok? ==> ResolvedFrom(Latest(prices, params.id).value, r.value.items[0], old(cache), G())
      ensures r.Ok? ==> forall u :: u in UsersOf(G(), params.id) ==>
                u in cache && FreshCost(G(), u).Ok? && cache[u] == FreshCost(G(), u).value
      ensures r.Err? ==>
                (unchanged(this) ||
                 (G() == Synced(old(G()), units, params, old(nextId), old(clock)) && PriceApplied(G(), units, params)))
    {
      var row := SyncIngredient(params);
      if row.Err? {
        return Err(row.error);
      }
      ghost var mid := cache;
      LatestRowReadsBack(G(), params.id);
      SingleRowGroups(row.value);
      var out := ParseIngredientRows([row.value]);
      RefreshesTrans(old(cache), mid, cache, G());
      if out.Err? {
        return Err(out.error);
      }
      assert ResolvedItems([Latest(prices, params.id).value], out.value[0].items, mid, G());
      ResolvedFromWeakens(Latest(prices, params.id).value, out.value[0].items[0], old(cache), mid, G());
      return Ok(out.value[0]);
    }

    /**
     * The price part of `UpdateIngredientWithPrice` as written: the gate
     * compares the price and base-product pointers by address, and a
     * validated update sets one of the two, so a price row is always
     * inserted; the refresh then leaves the base product of the row read
     * before the insert.
     */
    method ApplyPriceAsWritten(params: UpdateIngredientParams) returns (row: IngredientRow)
      requires Valid()
      requires params.id in ingredients && ingredients[params.id] == params.name
      requires params.quantity != 0.0 && Validate(units, params).Ok?
      modifies this`prices, this`clock, this`nextId
      ensures Valid()
      ensures G() == SyncedAsWritten(old(G()), units, params, old(nextId), old(clock))
      ensures clock == old(clock) + 1 && nextId == old(nextId) + 1
      ensures PriceApplied(G(), units, params)
      ensures row == LatestRow(G(), params.id).(baseProductId := old(LatestRow(G(), params.id)).baseProductId)
    {
      row := LatestRow(G(), params.id);
      var converted := ConvertedPrice(params, units[params.unitId]);
      AsWrittenAlwaysInserts(row, converted, params);
      assert NeedsInsertAsWritten(row, converted, params);
      var q := InsertedPrice(params, converted, nextId, clock);
      AppendKeepsOrder(prices, q);
      prices := prices + [q];
      nextId := nextId + 1;
      clock := clock + 1;
      row := RefreshAsWritten(row, q);
    }

    /**
     * `UpdateIngredientWithPrice` up to the commit, as written. The rename and
     * the price row are written in the transaction, which from then on holds
     * the store's write lock. The recomputation runs through the service's
     * own queries, outside the transaction: it reads the committed store as
     * it was before the update, and its cost insert waits on the lock until
     * it fails. The first product using the ingredient therefore ends the
     * loop, and the deferred rollback undoes the rename and the price row.
     */
    method SyncIngredientAsWritten(params: UpdateIngredientParams) returns (r: Result<IngredientRow>)
      requires Valid()
      requires params.quantity != 0.0
      modifies this`ingredients, this`prices, this`clock, this`nextId
      ensures Valid()
      ensures r.Err? ==> unchanged(this)
      ensures params.id !in old(ingredients) ==> r == Err(IngredientNotFound(params.id))
      ensures params.id in old(ingredients) && Validate(units, params).Err? ==> r == Err(Validate(units, params).error)
      ensures params.id in old(ingredients) && Validate(units, params).Ok? ==>
                (r.Ok? <==> UsersOf(old(G()), params.id) == {})
      ensures params.id in old(ingredients) && Validate(units, params).Ok? && r.Err? ==>
                exists u :: u in UsersOf(old(G()), params.id) && r.error == CommittedRecompute(old(G()), u)
      ensures r.Ok? ==> params.id in old(ingredients) && Validate(units, params).Ok?
      ensures r.Ok? ==> G() == SyncedAsWritten(old(G()), units, params, old(nextId), old(clock))
      ensures r.Ok? ==> PriceApplied(G(), units, params)
      ensures r.Ok? ==> r.value == LatestRow(G(), params.id).(baseProductId := old(LatestRow(G(), params.id)).baseProductId)
    {
      if params.id !in ingredients {
        return Err(IngredientNotFound(params.id));
      }
      var savedIngredients, savedPrices, savedClock, savedNextId := ingredients, prices, clock, nextId;
      var g0 := G();
      if ingredients[params.id] != params.name {
        ingredients := ingredients[params.id := params.name];
      }
      assert G() == g0.(ingredients := g0.ingredients[params.id := params.name]);
      var unit := Validate(units, params);
      if unit.Err? {
        ingredients := savedIngredients;
        return Err(unit.error);
      }
      assert LatestRow(G(), params.id).baseProductId == LatestRow(g0, params.id).baseProductId;
      var row := ApplyPriceAsWritten(params);
      var users := UsersOf(G(), params.id);
      if users != {} {
        MemberOfNonEmpty(users);
        var u :| u in users;
        var err := CommittedRecompute(g0, u);
        ingredients, prices, clock, nextId := savedIngredients, savedPrices, savedClock, savedNextId;
        return Err(err);
      }
      return Ok(row);
    }

    /**
     * `UpdateIngredientWithPrice` as written: the as-written update, then the
     * working row parsed and resolved. It succeeds only for an ingredient no
     * product uses, and then reads back the new price row with the base
     * product of the row read before the insert.
     */
    method UpdateIngredientWithPriceAsWritten(params: UpdateIngredientParams) returns (r: Result<IngredientWithPrices>)
      requires Valid()
      requires params.quantity != 0.0
      modifies this`ingredients, this`prices, this`clock, this`nextId, this`cache
      ensures Valid()
      ensures params.id !in old(ingredients) ==> r == Err(IngredientNotFound(params.id)) && unchanged(this)
      ensures params.id in old(ingredients) && Validate(units, params).Err? ==>
                r == Err(Validate(units, params).error) && unchanged(this)
      ensures params.id in old(ingredients) && Validate(units, params).Ok? && UsersOf(old(G()), params.id) != {} ==>
                r.Err? && unchanged(this) &&
                exists u :: u in UsersOf(old(G()), params.id) && r.error == CommittedRecompute(old(G()), u)
      ensures r.Ok? ==> UsersOf(old(G()), params.id) == {}
      ensures r.Ok? ==> G() == SyncedAsWritten(old(G()), units, params, old(nextId), old(clock)) && PriceApplied(G(), units, params)
      ensures r.Ok? ==> r.value.head == Ingredient(params.id, params.name) && |r.value.items| == 1
      ensures r.Ok? ==> ResolvedFrom(Latest(prices, params.id).value.(baseProductId := old(LatestRow(G(), params.id)).baseProductId),
                                     r.value.items[0], old(cache), G())
      ensures r.Err? ==>
                (unchanged(this) ||
                 (G() == SyncedAsWritten(old(G()), units, params, old(nextId), old(clock)) && PriceApplied(G(), units, params)))
    {
      ghost var oldBase := if params.id in ingredients then LatestRow(G(), params.id).baseProductId else None;
      var row := SyncIngredientAsWritten(params);
      if row.Err? {
        return Err(row.error);
      }
      ghost var mid := cache;
      var q := Latest(prices, params.id).value;
      assert row.value == RefreshAsWritten(LatestRow(G(), params.id), q).(baseProductId := oldBase);
      RefreshAsWrittenReadsBack(row.value, q);
      SingleRowGroups(row.value);
      var out := ParseIngredientRows([row.value]);
      RefreshesTrans(old(cache), mid, cache, G());
      if out.Err? {
        return Err(out.error);
      }
      assert ResolvedItems([q.(baseProductId := oldBase)], out.value[0].items, mid, G());
      ResolvedFromWeakens(q.(baseProductId := oldBase), out.value[0].items[0], old(cache), mid, G());
      return Ok(out.value[0]);
    }

    // ----- usages -----

    /**
     * `PutIngredientUsage`: the usage is stored in base units, then the
     * product's cost is recomputed; the usage stays when that fails.
     */
    method PutIngredientUsage(ingredientId: int, productId: int, unitId: int, quantity: real)
      returns (r: Result<IngredientUsage>)
      requires Valid()
      requires unitId in units
      modifies this`usages, this`nextId, this`cache
      ensures usages == old(usages) + [IngredientUsage(old(nextId), quantity / units[unitId].factor, unitId, ingredientId, productId)]
      ensures nextId == old(nextId) + 1
      ensures usages[|usages| - 1].quantity * units[unitId].factor == quantity
      ensures r.Ok? <==> FreshCost(G(), productId).Ok?
      ensures r.Ok? ==> r.value == usages[|usages| - 1] && productId in cache && cache[productId] == FreshCost(G(), productId).value
      ensures r.Err? ==> r.error == FreshCost(G(), productId).error
      ensures Refreshes(old(cache), cache, G())
    {
      var unit := units[unitId];
      var usage := IngredientUsage(nextId, quantity / unit.factor, unitId, ingredientId, productId);
      usages := usages + [usage];
      nextId := nextId + 1;
      var c := UpdateProductCost(productId);
      if c.Err? {
        return Err(c.error);
      }
      WalkTouchedFresh(G(), productId, {});
      return Ok(usage);
    }

    /**
     * `UpdateIngredientUsage`: the usage with that id gets the new unit and
     * quantity (in base units), then its product's cost is recomputed. No
     * such usage is the single-row query's "no rows" error.
     */
    method UpdateIngredientUsage(usageId: int, unitId: int, quantity: real) returns (r: Result<IngredientUsage>)
      requires Valid()
      requires unitId in units
      modifies this`usages, this`cache
      ensures FirstIndex(old(usages), UsageIs(usageId)).None? ==> r == Err(NoRows) && usages == old(usages) && cache == old(cache)
      ensures FirstIndex(old(usages), UsageIs(usageId)).Some? ==>
                var k := FirstIndex(old(usages), UsageIs(usageId)).value;
                var updated := old(usages)[k].(quantity := quantity / units[unitId].factor, unitId := unitId);
                usages == old(usages)[k := updated] &&
                (r.Ok? <==> FreshCost(G(), updated.productId).Ok?) &&
                (r.Ok? ==> r.value == updated && updated.productId in cache &&
                           cache[updated.productId] == FreshCost(G(), updated.productId).value) &&
                (r.Err? ==> r.error == FreshCost(G(), updated.productId).error)
      ensures Refreshes(old(cache), cache, G())
    {
      var k := FirstIndex(usages, UsageIs(usageId));
      if k.None? {
        return Err(NoRows);
      }
      var updated := usages[k.value].(quantity := quantity / units[unitId].factor, unitId := unitId);
      usages := usages[k.value := updated];
      var c := UpdateProductCost(updated.productId);
      if c.Err? {
        return Err(c.error);
      }
      WalkTouchedFresh(G(), updated.productId, {});
      return Ok(updated);
    }

    /**
     * `DeleteIngredientUsage`: the usage with that id is removed, then the
     * cost of the product it belonged to is recomputed.
     */
    method DeleteIngredientUsage(usageId: int) returns (err: Option<Error>)
      modifies this`usages, this`cache
      ensures FirstIndex(old(usages), UsageIs(usageId)).None? ==> err == Some(NoRows) && usages == old(usages) && cache == old(cache)
      ensures FirstIndex(old(usages), UsageIs(usageId)).Some? ==>
                var k := FirstIndex(old(usages), UsageIs(usageId)).value;
                var p := old(usages)[k].productId;
                usages == old(usages)[..k] + old(usages)[k + 1..] &&
                (err.None? <==> FreshCost(G(), p).Ok?) &&
                (err.None? ==> p in cache && cache[p] == FreshCost(G(), p).value) &&
                (err.Some? ==> err.value == FreshCost(G(), p).error)
      ensures Refreshes(old(cache), cache, G())
    {
      var k := FirstIndex(usages, UsageIs(usageId));
      if k.None? {
        return Some(NoRows);
      }
      var p := usages[k.value].productId;
      usages := usages[..k.value] + usages[k.value + 1..];
      var c := UpdateProductCost(p);
      if c.Err? {
        return Some(c.error);
      }
      WalkTouchedFresh(G(), p, {});
      return None;
    }
  }
}
