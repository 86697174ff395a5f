/** Entities of the price-calculation store and the error outcomes of the engine. */
module Types {

  datatype Option<T> = None | Some(value: T)
  {
    function GetOr(default: T): T
    {
      if Some? then value else default
    }
  }

  /** Every way an engine or client call can fail. */
  datatype Error =
    | CircularDependency(productId: int)   // "circular dependency detected on product %d"
    | NoPriceFound(ingredientId: int)      // "no price found for ingredient %d"
    | IngredientNotFound(ingredientId: int) // "ingredient with id %d not found"
    | MissingPriceFields(ingredientId: int) // "missing fields in ingredient price row: %d"
    | UnitNotFound                          // "unit not found"
    | PriceXorBaseProduct                   // "either price or baseProductId must be set but not both"
    | NoRows                                // sql.ErrNoRows from a single-row query
    | IndexOutOfRange                       // Go runtime panic: index into an empty slice
    | NilDereference                        // Go nil-pointer panic, or a browser TypeError reading a property of null
    | DatabaseLocked                        // SQLite "database is locked": a write blocked by another connection's transaction
    | UnitOrIngredientMissing(usageId: int) // client: "Unit or ingredient not found"

  datatype Result<T> = Ok(value: T) | Err(error: Error)

  /** A unit of measure; `factor` converts to its base unit (base quantity = quantity / factor). */
  datatype Unit = Unit(id: int, name: string, baseUnitId: Option<int>, factor: real)

  datatype Ingredient = Ingredient(id: int, name: string)

  /**
   * One row of an ingredient's price history. `price` is per `quantity` of
   * `unitId`; when `baseProductId` is set the price is derived from that product.
   */
  datatype IngredientPrice = IngredientPrice(
    id: int, timeStamp: int, ingredientId: int,
    price: Option<real>, quantity: real, unitId: int, baseProductId: Option<int>)

  /** `quantity` of ingredient `ingredientId` used by product `productId`, in base units. */
  datatype IngredientUsage = IngredientUsage(
    id: int, quantity: real, unitId: int, ingredientId: int, productId: int)

  datatype Product = Product(id: int, name: string, categoryId: int, price: real, multiplicator: real)

  /** One entry of a grouped result: a head record and the items collected under it. */
  datatype Grouped<H, X> = Grouped(head: H, items: seq<X>)

  /** An ingredient (`head`) with the price rows (`items`) read for it. */
  type IngredientWithPrices = Grouped<Ingredient, IngredientPrice>

  /** A usage of a product together with its ingredient and that ingredient's price row. */
  datatype UsageWithIngredient = UsageWithIngredient(usage: IngredientUsage, ingredient: Ingredient, price: IngredientPrice)

  /** A product (`head`) with its usages (`items`). */
  type ProductWithIngredients = Grouped<Product, UsageWithIngredient>

  /** A product and its cached cost. */
  datatype ProductWithCost = ProductWithCost(product: Product, cost: real)

  /** A row of the ingredient / latest-price left join; the price columns are null without a price. */
  datatype IngredientRow = IngredientRow(
    id: int, name: string,
    priceId: Option<int>, timeStamp: Option<int>, price: Option<real>,
    quantity: Option<real>, unitId: Option<int>, baseProductId: Option<int>)

  /**
   * A row of the product / usage / ingredient / latest-price left join; the
   * usage and price columns are null for a product without usages.
   */
  datatype ProductRow = ProductRow(
    id: int, name: string, price: real, multiplicator: real, categoryId: int,
    usageId: Option<int>, quantity: Option<real>, unitId: Option<int>, ingredientId: Option<int>, productId: Option<int>,
    ingredientRowId: Option<int>, ingredientName: Option<string>,
    priceId: Option<int>, timeStamp: Option<int>, ingredientPrice: Option<real>, priceQuantity: Option<real>,
    priceUnitId: Option<int>, priceIngredientId: Option<int>, baseProductId: Option<int>)

  /** A usage of a product joined with the latest price of its ingredient. */
  datatype UsageWithPrice = UsageWithPrice(
    ingredientId: int, quantity: real, price: Option<real>, baseProductId: Option<int>)
}
