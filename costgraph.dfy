/**
 * The store as the engine reads it, and the two recursive walks of
 * services/priceCalc_services.go over it:
 *  - the cost walk of `calculateProductCost`, which threads ONE shared
 *    visited set through the whole walk (siblings included), and
 *  - the base-product chain of `checkCircular`.
 * Both walks are specified here as functions; the service methods are
 * proved equal to them.
 */
module CostGraph {
  import opened Types

  /** What the walks read: ingredient names, the price history and the usages. */
  datatype Graph = Graph(
    ingredients: map<int, string>,
    prices: seq<IngredientPrice>,
    usages: seq<IngredientUsage>)

  /** Price rows are appended in time order: time stamps strictly increase. */
  ghost predicate TimeOrdered(prices: seq<IngredientPrice>)
  {
    forall j, k :: 0 <= j < k < |prices| ==> prices[j].timeStamp < prices[k].timeStamp
  }

  /** The current price of ingredient `i`: the last row recorded for it. */
  function Latest(prices: seq<IngredientPrice>, i: int): (r: Option<IngredientPrice>)
    ensures r.Some? ==> r.value in prices && r.value.ingredientId == i
    ensures r.None? ==> forall q :: q in prices ==> q.ingredientId != i
  {
    if |prices| == 0 then None
    else if prices[|prices| - 1].ingredientId == i then Some(prices[|prices| - 1])
    else Latest(prices[..|prices| - 1], i)
  }

  /** In a time-ordered history the current price is the row with the highest time stamp. */
  lemma {:induction false} LatestIsNewest(prices: seq<IngredientPrice>, i: int, q: IngredientPrice)
    requires TimeOrdered(prices)
    requires q in prices && q.ingredientId == i
    ensures Latest(prices, i).Some?
    ensures q.timeStamp <= Latest(prices, i).value.timeStamp
    decreases |prices|
  {
    var n := |prices| - 1;
    if prices[n].ingredientId != i || q != prices[n] {
      if prices[n].ingredientId == i {
        var k :| 0 <= k < |prices| && prices[k] == q;
        assert k < n;
      } else {
        assert q in prices[..n];
        LatestIsNewest(prices[..n], i, q);
      }
    }
  }

  /** Every product some price row derives from: the finite universe both walks stay in. */
  function BaseIds(g: Graph): set<int>
  {
    set q | q in g.prices && q.baseProductId.Some? :: q.baseProductId.value
  }

  /** A usage joined with the current price of its ingredient (null columns when it has none). */
  function Join(g: Graph, u: IngredientUsage): (r: UsageWithPrice)
    ensures r.ingredientId == u.ingredientId && r.quantity == u.quantity
    ensures r.baseProductId.Some? ==> r.baseProductId.value in BaseIds(g)
  {
    match Latest(g.prices, u.ingredientId)
    case None => UsageWithPrice(u.ingredientId, u.quantity, None, None)
    case Some(q) => UsageWithPrice(u.ingredientId, u.quantity, q.price, q.baseProductId)
  }

  function RowsOf(g: Graph, us: seq<IngredientUsage>, p: int): (rows: seq<UsageWithPrice>)
    ensures forall r :: r in rows && r.baseProductId.Some? ==> r.baseProductId.value in BaseIds(g)
  {
    if |us| == 0 then []
    else RowsOf(g, us[..|us| - 1], p) + (if us[|us| - 1].productId == p then [Join(g, us[|us| - 1])] else [])
  }

  /** The usages of product `p` joined with their current prices, in usage order. */
  function Rows(g: Graph, p: int): (rows: seq<UsageWithPrice>)
    ensures forall r :: r in rows && r.baseProductId.Some? ==> r.baseProductId.value in BaseIds(g)
  {
    RowsOf(g, g.usages, p)
  }

  /** Outcome of a cost walk and the visited set it leaves behind. */
  datatype Walked = Walked(cost: Result<real>, visited: set<int>)

  /** The running total after adding `quantity` units at `unitCost`. */
  function Add(total: real, unitCost: real, quantity: real): real
  {
    total + unitCost * quantity
  }

  /** `calculateProductCost(p, visited)`. */
  function Walk(g: Graph, p: int, visited: set<int>): (w: Walked)
    ensures visited <= w.visited
    ensures w.cost.Ok? ==> p !in visited && p in w.visited
    decreases BaseIds(g) + {p} - visited, 0, 0
  {
    if p in visited then Walked(Err(CircularDependency(p)), visited)
    else WalkRows(g, p, 0, visited + {p}, 0.0)
  }

  /** The usage loop of `calculateProductCost` from row `i` on, with running total `total`. */
  function WalkRows(g: Graph, p: int, i: nat, visited: set<int>, total: real): (w: Walked)
    requires i <= |Rows(g, p)|
    ensures visited <= w.visited
    decreases BaseIds(g) - visited, 1, |Rows(g, p)| - i
  {
    if i == |Rows(g, p)| then Walked(Ok(total), visited)
    else
      var row := Rows(g, p)[i];
      if row.baseProductId.Some? then
        var sub := Walk(g, row.baseProductId.value, visited);
        if sub.cost.Err? then sub
        else WalkRows(g, p, i + 1, sub.visited, Add(total, sub.cost.value, row.quantity))
      else if row.price.Some? then
        WalkRows(g, p, i + 1, visited, Add(total, row.price.value, row.quantity))
      else Walked(Err(NoPriceFound(row.ingredientId)), visited)
  }

  /** One step of the usage loop, as facts a proof can call on. */
  lemma WalkRowsStep(g: Graph, p: int, i: nat, v: set<int>, total: real)
    requires i < |Rows(g, p)|
    ensures Rows(g, p)[i].baseProductId.Some? && Walk(g, Rows(g, p)[i].baseProductId.value, v).cost.Err? ==>
              WalkRows(g, p, i, v, total) == Walk(g, Rows(g, p)[i].baseProductId.value, v)
    ensures Rows(g, p)[i].baseProductId.Some? && Walk(g, Rows(g, p)[i].baseProductId.value, v).cost.Ok? ==>
              WalkRows(g, p, i, v, total)
              == WalkRows(g, p, i + 1, Walk(g, Rows(g, p)[i].baseProductId.value, v).visited,
                          Add(total, Walk(g, Rows(g, p)[i].baseProductId.value, v).cost.value, Rows(g, p)[i].quantity))
    ensures Rows(g, p)[i].baseProductId.None? && Rows(g, p)[i].price.Some? ==>
              WalkRows(g, p, i, v, total)
              == WalkRows(g, p, i + 1, v, Add(total, Rows(g, p)[i].price.value, Rows(g, p)[i].quantity))
    ensures Rows(g, p)[i].baseProductId.None? && Rows(g, p)[i].price.None? ==>
              WalkRows(g, p, i, v, total).cost == Err(NoPriceFound(Rows(g, p)[i].ingredientId)) &&
              WalkRows(g, p, i, v, total).visited == v
  {
  }

  /** The cost a walk with a fresh, empty visited set computes. */
  function FreshCost(g: Graph, p: int): Result<real>
  {
    Walk(g, p, {}).cost
  }

  function FreshValue(g: Graph, p: int): real
  {
    if FreshCost(g, p).Ok? then FreshCost(g, p).value else 0.0
  }

  /** What one usage row adds to its product's cost. */
  function Contribution(g: Graph, r: UsageWithPrice): real
  {
    if r.baseProductId.Some? then FreshValue(g, r.baseProductId.value) * r.quantity
    else r.price.GetOr(0.0) * r.quantity
  }

  /** Sum of the contributions of `rows[i..]`. */
  function TotalFrom(g: Graph, rows: seq<UsageWithPrice>, i: nat): real
    requires i <= |rows|
    decreases |rows| - i
  {
    if i == |rows| then 0.0 else Contribution(g, rows[i]) + TotalFrom(g, rows, i + 1)
  }

  /**
   * A successful walk gives the same cost from any smaller visited set, and
   * visits the same new products.
   */
  lemma {:induction false} WalkMono(g: Graph, x: int, v: set<int>, w: set<int>)
    requires w <= v
    requires Walk(g, x, v).cost.Ok?
    ensures Walk(g, x, w) == Walked(Walk(g, x, v).cost, w + (Walk(g, x, v).visited - v))
    decreases BaseIds(g) + {x} - v, 0, 0
  {
    WalkRowsMono(g, x, 0, v + {x}, w + {x}, 0.0);
  }

  lemma {:induction false} WalkRowsMono(g: Graph, p: int, i: nat, v: set<int>, w: set<int>, total: real)
    requires i <= |Rows(g, p)|
    requires w <= v
    requires WalkRows(g, p, i, v, total).cost.Ok?
    ensures WalkRows(g, p, i, w, total)
         == Walked(WalkRows(g, p, i, v, total).cost, w + (WalkRows(g, p, i, v, total).visited - v))
    decreases BaseIds(g) - v, 1, |Rows(g, p)| - i
  {
    if i < |Rows(g, p)| {
      WalkRowsStep(g, p, i, v, total);
      var row := Rows(g, p)[i];
      if row.baseProductId.Some? {
        var b := row.baseProductId.value;
        var sub := Walk(g, b, v);
        WalkMono(g, b, v, w);
        var w1 := w + (sub.visited - v);
        WalkRowsMono(g, p, i + 1, sub.visited, w1, Add(total, sub.cost.value, row.quantity));
      } else if row.price.Some? {
        WalkRowsMono(g, p, i + 1, v, w, Add(total, row.price.value, row.quantity));
      }
    }
  }

  /** A successful walk computes its cost from scratch: every product it visits walks fine alone. */
  lemma {:induction false} WalkTouchedFresh(g: Graph, x: int, v: set<int>)
    requires Walk(g, x, v).cost.Ok?
    ensures FreshCost(g, x) == Walk(g, x, v).cost
    ensures forall y :: y in Walk(g, x, v).visited - v ==> FreshCost(g, y).Ok?
    decreases BaseIds(g) + {x} - v, 0, 0
  {
    WalkMono(g, x, v, {});
    WalkRowsTouchedFresh(g, x, 0, v + {x}, 0.0);
  }

  lemma {:induction false} WalkRowsTouchedFresh(g: Graph, p: int, i: nat, v: set<int>, total: real)
    requires i <= |Rows(g, p)|
    requires WalkRows(g, p, i, v, total).cost.Ok?
    ensures forall y :: y in WalkRows(g, p, i, v, total).visited - v ==> FreshCost(g, y).Ok?
    decreases BaseIds(g) - v, 1, |Rows(g, p)| - i
  {
    if i < |Rows(g, p)| {
      WalkRowsStep(g, p, i, v, total);
      var row := Rows(g, p)[i];
      if row.baseProductId.Some? {
        var sub := Walk(g, row.baseProductId.value, v);
        WalkTouchedFresh(g, row.baseProductId.value, v);
        WalkRowsTouchedFresh(g, p, i + 1, sub.visited, Add(total, sub.cost.value, row.quantity));
      } else if row.price.Some? {
        WalkRowsTouchedFresh(g, p, i + 1, v, Add(total, row.price.value, row.quantity));
      }
    }
  }

  /**
   * A successful walk of `p` returns the sum over its usages, in order, of
   * sub-product cost times quantity or price times quantity; every usage is
   * priced and every sub-product has a cost of its own.
   */
  lemma {:induction false} WalkSumsContributions(g: Graph, p: int, v: set<int>)
    requires Walk(g, p, v).cost.Ok?
    ensures Walk(g, p, v).cost.value == TotalFrom(g, Rows(g, p), 0)
    ensures forall k :: 0 <= k < |Rows(g, p)| ==> Rows(g, p)[k].baseProductId.Some? || Rows(g, p)[k].price.Some?
    ensures forall r :: r in Rows(g, p) && r.baseProductId.Some? ==> FreshCost(g, r.baseProductId.value).Ok?
  {
    WalkRowsSums(g, p, 0, v + {p}, 0.0);
  }

  lemma {:induction false} WalkRowsSums(g: Graph, p: int, i: nat, v: set<int>, total: real)
    requires i <= |Rows(g, p)|
    requires WalkRows(g, p, i, v, total).cost.Ok?
    ensures WalkRows(g, p, i, v, total).cost.value == total + TotalFrom(g, Rows(g, p), i)
    ensures forall k :: i <= k < |Rows(g, p)| ==> Rows(g, p)[k].baseProductId.Some? || Rows(g, p)[k].price.Some?
    ensures forall k :: i <= k < |Rows(g, p)| && Rows(g, p)[k].baseProductId.Some? ==>
              FreshCost(g, Rows(g, p)[k].baseProductId.value).Ok?
    decreases |Rows(g, p)| - i
  {
    if i < |Rows(g, p)| {
      WalkRowsStep(g, p, i, v, total);
      var row := Rows(g, p)[i];
      if row.baseProductId.Some? {
        var sub := Walk(g, row.baseProductId.value, v);
        WalkMono(g, row.baseProductId.value, v, {});
        WalkRowsSums(g, p, i + 1, sub.visited, Add(total, sub.cost.value, row.quantity));
      } else {
        WalkRowsSums(g, p, i + 1, v, Add(total, row.price.value, row.quantity));
      }
    }
  }

  /** A usage whose ingredient has neither a price nor a base product makes the walk fail. */
  lemma MissingPriceFails(g: Graph, p: int, v: set<int>, k: nat)
    requires k < |Rows(g, p)|
    requires Rows(g, p)[k].baseProductId.None? && Rows(g, p)[k].price.None?
    ensures Walk(g, p, v).cost.Err?
  {
    if Walk(g, p, v).cost.Ok? {
      WalkSumsContributions(g, p, v);
    }
  }

  /** `x` reaches `y` through at most `n + 1` base-product references of usages. */
  ghost predicate Reaches(g: Graph, x: int, y: int, n: nat)
    decreases n
  {
    exists k :: 0 <= k < |Rows(g, x)| && Rows(g, x)[k].baseProductId.Some? &&
      (Rows(g, x)[k].baseProductId.value == y || (n > 0 && Reaches(g, Rows(g, x)[k].baseProductId.value, y, n - 1)))
  }

  /** A successful walk never reaches a product that was already visited when it started. */
  lemma {:induction false} WalkAvoidsVisited(g: Graph, x: int, v: set<int>, y: int, n: nat)
    requires Walk(g, x, v).cost.Ok?
    requires y in v
    ensures !Reaches(g, x, y, n)
    decreases BaseIds(g) + {x} - v, 0, 0
  {
    WalkRowsAvoidVisited(g, x, 0, v + {x}, 0.0, y, n);
  }

  lemma {:induction false} WalkRowsAvoidVisited(g: Graph, p: int, i: nat, v: set<int>, total: real, y: int, n: nat)
    requires i <= |Rows(g, p)|
    requires WalkRows(g, p, i, v, total).cost.Ok?
    requires y in v
    ensures forall k :: i <= k < |Rows(g, p)| && Rows(g, p)[k].baseProductId.Some? ==>
              Rows(g, p)[k].baseProductId.value != y &&
              (n > 0 ==> !Reaches(g, Rows(g, p)[k].baseProductId.value, y, n - 1))
    decreases BaseIds(g) - v, 1, |Rows(g, p)| - i
  {
    if i < |Rows(g, p)| {
      WalkRowsStep(g, p, i, v, total);
      var row := Rows(g, p)[i];
      if row.baseProductId.Some? {
        var sub := Walk(g, row.baseProductId.value, v);
        if n > 0 {
          WalkAvoidsVisited(g, row.baseProductId.value, v, y, n - 1);
        }
        WalkRowsAvoidVisited(g, p, i + 1, sub.visited, Add(total, sub.cost.value, row.quantity), y, n);
      } else {
        WalkRowsAvoidVisited(g, p, i + 1, v, Add(total, row.price.value, row.quantity), y, n);
      }
    }
  }

  /** A product that depends on itself, directly or transitively, never gets a cost. */
  lemma CycleIsReported(g: Graph, p: int, n: nat, v: set<int>)
    requires Reaches(g, p, p, n)
    ensures Walk(g, p, v).cost.Err?
  {
    if Walk(g, p, v).cost.Ok? {
      WalkRowsAvoidVisited(g, p, 0, v + {p}, 0.0, p, n);
    }
  }

  // ---------------------------------------------------------------------
  // The walk with a per-path visited set: a product counts as circular only
  // when it is reached again below itself, not when a sibling branch has
  // already costed it.
  // ---------------------------------------------------------------------

  /** `calculateProductCost` with `visited` holding only the products on the path from the root to `p`. */
  function PathWalk(g: Graph, p: int, path: set<int>): Result<real>
    decreases BaseIds(g) + {p} - path, 0, 0
  {
    if p in path then Err(CircularDependency(p))
    else PathWalkRows(g, p, 0, path + {p}, 0.0)
  }

  /** The usage loop of the per-path walk: every row's sub-walk starts from the same path. */
  function PathWalkRows(g: Graph, p: int, i: nat, path: set<int>, total: real): Result<real>
    requires i <= |Rows(g, p)|
    decreases BaseIds(g) - path, 1, |Rows(g, p)| - i
  {
    if i == |Rows(g, p)| then Ok(total)
    else
      var row := Rows(g, p)[i];
      if row.baseProductId.Some? then
        var sub := PathWalk(g, row.baseProductId.value, path);
        if sub.Err? then sub
        else PathWalkRows(g, p, i + 1, path, Add(total, sub.value, row.quantity))
      else if row.price.Some? then
        PathWalkRows(g, p, i + 1, path, Add(total, row.price.value, row.quantity))
      else Err(NoPriceFound(row.ingredientId))
  }

  /** One step of the per-path usage loop. */
  lemma PathWalkRowsStep(g: Graph, p: int, i: nat, path: set<int>, total: real)
    requires i < |Rows(g, p)|
    ensures Rows(g, p)[i].baseProductId.Some? && PathWalk(g, Rows(g, p)[i].baseProductId.value, path).Err? ==>
              PathWalkRows(g, p, i, path, total) == PathWalk(g, Rows(g, p)[i].baseProductId.value, path)
    ensures Rows(g, p)[i].baseProductId.Some? && PathWalk(g, Rows(g, p)[i].baseProductId.value, path).Ok? ==>
              PathWalkRows(g, p, i, path, total)
              == PathWalkRows(g, p, i + 1, path,
                              Add(total, PathWalk(g, Rows(g, p)[i].baseProductId.value, path).value, Rows(g, p)[i].quantity))
    ensures Rows(g, p)[i].baseProductId.None? && Rows(g, p)[i].price.Some? ==>
              PathWalkRows(g, p, i, path, total)
              == PathWalkRows(g, p, i + 1, path, Add(total, Rows(g, p)[i].price.value, Rows(g, p)[i].quantity))
    ensures Rows(g, p)[i].baseProductId.None? && Rows(g, p)[i].price.None? ==>
              PathWalkRows(g, p, i, path, total) == Err(NoPriceFound(Rows(g, p)[i].ingredientId))
  {
  }

  /**
   * The per-path walk only removes false alarms: wherever the shared-set walk
   * computes a cost, the per-path walk from any path inside its visited set
   * computes the same cost.
   */
  lemma {:induction false} PathWalkExtendsWalk(g: Graph, p: int, v: set<int>, path: set<int>)
    requires path <= v
    ensures Walk(g, p, v).cost.Ok? ==> PathWalk(g, p, path) == Walk(g, p, v).cost
    decreases BaseIds(g) + {p} - v, 0, 0
  {
    if p !in v {
      PathWalkRowsExtendWalkRows(g, p, 0, v + {p}, path + {p}, 0.0);
    }
  }

  lemma {:induction false} PathWalkRowsExtendWalkRows(g: Graph, p: int, i: nat, v: set<int>, path: set<int>, total: real)
    requires i <= |Rows(g, p)|
    requires path <= v
    ensures WalkRows(g, p, i, v, total).cost.Ok? ==> PathWalkRows(g, p, i, path, total) == WalkRows(g, p, i, v, total).cost
    decreases BaseIds(g) - v, 1, |Rows(g, p)| - i
  {
    if i < |Rows(g, p)| {
      WalkRowsStep(g, p, i, v, total);
      PathWalkRowsStep(g, p, i, path, total);
      var row := Rows(g, p)[i];
      if row.baseProductId.Some? {
        var b := row.baseProductId.value;
        var sub := Walk(g, b, v);
        PathWalkExtendsWalk(g, b, v, path);
        if sub.cost.Ok? {
          PathWalkRowsExtendWalkRows(g, p, i + 1, sub.visited, path, Add(total, sub.cost.value, row.quantity));
        }
      } else if row.price.Some? {
        PathWalkRowsExtendWalkRows(g, p, i + 1, v, path, Add(total, row.price.value, row.quantity));
      }
    }
  }

  // ---------------------------------------------------------------------
  // The base-product chain followed by `checkCircular`. The id found in a
  // price's base-product column is used, as written in the source, as the
  // NEXT INGREDIENT id: product and ingredient ids share one namespace here.
  // ---------------------------------------------------------------------

  /** The base product of the current price of ingredient `x`, if any. */
  function Next(g: Graph, x: int): (r: Option<int>)
    ensures r.Some? ==> r.value in BaseIds(g)
  {
    match Latest(g.prices, x)
    case None => None
    case Some(q) => q.baseProductId
  }

  /** The id reached after `i` steps of `Next` from `s`, if the chain is that long. */
  function ChainAt(g: Graph, s: int, i: nat): Option<int>
  {
    if i == 0 then Some(s)
    else match ChainAt(g, s, i - 1)
      case None => None
      case Some(x) => Next(g, x)
  }

  /**
   * `checkCircular(target, cur, visited)` with an ingredient that has no rows
   * answering false (what the error check after the query intends).
   */
  function Circular(g: Graph, target: int, cur: int, visited: set<int>): bool
    decreases BaseIds(g) + {cur} - visited
  {
    if cur in visited then false
    else match Next(g, cur)
      case None => false
      case Some(b) => if b == target then true else Circular(g, target, b, visited + {cur})
  }

  /**
   * `checkCircular` as written in either copy: an id with no ingredient row
   * fails with `missing` (a panic on `ingredients[0]` in the newer copy, the
   * no-rows error of a single-row query in the older one).
   */
  function CircularOrFail(g: Graph, target: int, cur: int, visited: set<int>, missing: Error): Result<bool>
    decreases BaseIds(g) + {cur} - visited
  {
    if cur in visited then Ok(false)
    else if cur !in g.ingredients then Err(missing)
    else match Next(g, cur)
      case None => Ok(false)
      case Some(b) => if b == target then Ok(true) else CircularOrFail(g, target, b, visited + {cur}, missing)
  }

  /** One step of the chain from `c` is the chain from its successor. */
  lemma {:induction false} ChainShift(g: Graph, c: int, k: nat)
    ensures ChainAt(g, c, k + 1) == (match Next(g, c) case None => None case Some(b) => ChainAt(g, b, k))
  {
    if k > 0 {
      ChainShift(g, c, k - 1);
    }
  }

  /** The chain from `s` after `i + m` steps is the chain from its `i`-th element after `m`. */
  lemma {:induction false} ChainAdd(g: Graph, s: int, i: nat, m: nat, x: int)
    requires ChainAt(g, s, i) == Some(x)
    ensures ChainAt(g, s, i + m) == ChainAt(g, x, m)
  {
    if m > 0 {
      ChainAdd(g, s, i, m - 1, x);
      ChainShift(g, x, m - 1);
      match ChainAt(g, x, m - 1)
      case None =>
      case Some(z) =>
        ChainShift(g, z, 0);
    }
  }

  /** Once the chain has ended it stays ended. */
  lemma {:induction false} ChainDefinedBelow(g: Graph, s: int, j: nat, k: nat)
    requires j <= k
    requires ChainAt(g, s, k).Some?
    ensures ChainAt(g, s, j).Some?
    decreases k - j
  {
    if j < k {
      ChainDefinedBelow(g, s, j + 1, k);
    }
  }

  /** Soundness: a true answer means the chain from `cur` really arrives at `target`. */
  lemma {:induction false} CircularSound(g: Graph, target: int, cur: int, visited: set<int>)
    requires Circular(g, target, cur, visited)
    ensures exists k: nat :: 1 <= k && ChainAt(g, cur, k) == Some(target)
    decreases BaseIds(g) + {cur} - visited
  {
    var b := Next(g, cur).value;
    ChainShift(g, cur, 0);
    if b == target {
      assert ChainAt(g, cur, 1) == Some(target);
    } else {
      CircularSound(g, target, b, visited + {cur});
      var k: nat :| 1 <= k && ChainAt(g, b, k) == Some(target);
      ChainShift(g, cur, k);
      assert ChainAt(g, cur, k + 1) == Some(target);
    }
  }

  /**
   * Completeness along a chain: if the chain from `c` first arrives at
   * `target` after `h + 1` steps and its elements before that are distinct
   * and unvisited, the check answers true.
   */
  lemma {:induction false} CircularComplete(g: Graph, target: int, c: int, visited: set<int>, h: nat)
    requires ChainAt(g, c, h + 1) == Some(target)
    requires forall j: nat :: 1 <= j <= h ==> ChainAt(g, c, j) != Some(target)
    requires forall j: nat :: j <= h ==> ChainAt(g, c, j).Some? && ChainAt(g, c, j).value !in visited
    requires forall i: nat, j: nat :: i < j <= h ==> ChainAt(g, c, i) != ChainAt(g, c, j)
    ensures Circular(g, target, c, visited)
    decreases h
  {
    ChainShift(g, c, 0);
    assert ChainAt(g, c, 0) == Some(c);
    if h > 0 {
      var b := Next(g, c).value;
      forall k: nat
        ensures ChainAt(g, b, k) == ChainAt(g, c, k + 1)
      {
        ChainShift(g, c, k);
      }
      assert ChainAt(g, b, h) == Some(target);
      assert b != target by {
        assert ChainAt(g, c, 1) == Some(b);
      }
      forall j: nat | j <= h - 1
        ensures ChainAt(g, b, j).Some? && ChainAt(g, b, j).value !in visited + {c}
      {
        assert ChainAt(g, c, 0) != ChainAt(g, c, j + 1);
      }
      CircularComplete(g, target, b, visited + {c}, h - 1);
    }
  }

  /** The shortest way to the target never repeats an id before arriving. */
  lemma ShortestChainIsSimple(g: Graph, target: int, s: int, h: nat)
    requires ChainAt(g, s, h + 1) == Some(target)
    requires forall j: nat :: 1 <= j <= h ==> ChainAt(g, s, j) != Some(target)
    ensures forall j: nat :: j <= h ==> ChainAt(g, s, j).Some?
    ensures forall i: nat, j: nat :: i < j <= h ==> ChainAt(g, s, i) != ChainAt(g, s, j)
  {
    forall j: nat | j <= h
      ensures ChainAt(g, s, j).Some?
    {
      ChainDefinedBelow(g, s, j, h + 1);
    }
    forall i: nat, j: nat | i < j <= h
      ensures ChainAt(g, s, i) != ChainAt(g, s, j)
    {
      if ChainAt(g, s, i) == ChainAt(g, s, j) {
        ChainDefinedBelow(g, s, i, h + 1);
        var x := ChainAt(g, s, i).value;
        var m := h + 1 - j;
        ChainAdd(g, s, i, m, x);
        ChainAdd(g, s, j, m, x);
        assert ChainAt(g, s, i + m) == Some(target);
      }
    }
  }

  /** The least number of steps after which the chain arrives at `target`. */
  lemma ShortestArrival(g: Graph, target: int, s: int) returns (h: nat)
    requires exists k: nat :: 1 <= k && ChainAt(g, s, k) == Some(target)
    ensures ChainAt(g, s, h + 1) == Some(target)
    ensures forall j: nat :: 1 <= j <= h ==> ChainAt(g, s, j) != Some(target)
  {
    var k: nat :| 1 <= k && ChainAt(g, s, k) == Some(target);
    h := 0;
    while ChainAt(g, s, h + 1) != Some(target)
      invariant h + 1 <= k
      invariant forall j: nat :: 1 <= j <= h ==> ChainAt(g, s, j) != Some(target)
      decreases k - h
    {
      h := h + 1;
    }
  }

  /** The cycle check answers true exactly when the chain from `s` arrives at `target`. */
  lemma CircularIffChainArrives(g: Graph, target: int, s: int)
    ensures Circular(g, target, s, {}) <==> exists k: nat :: 1 <= k && ChainAt(g, s, k) == Some(target)
  {
    if Circular(g, target, s, {}) {
      CircularSound(g, target, s, {});
    }
    if exists k: nat :: 1 <= k && ChainAt(g, s, k) == Some(target) {
      var h := ShortestArrival(g, target, s);
      ShortestChainIsSimple(g, target, s, h);
      CircularComplete(g, target, s, {}, h);
    }
  }

  /**
   * The as-written check agrees with `Circular` whenever it answers, and
   * answers whenever every id the chain can visit is a known ingredient.
   */
  lemma {:induction false} CircularOrFailAgrees(g: Graph, target: int, cur: int, visited: set<int>, missing: Error)
    ensures CircularOrFail(g, target, cur, visited, missing).Ok? ==>
              CircularOrFail(g, target, cur, visited, missing).value == Circular(g, target, cur, visited)
    ensures CircularOrFail(g, target, cur, visited, missing).Err? ==>
              CircularOrFail(g, target, cur, visited, missing).error == missing
    ensures cur in g.ingredients && BaseIds(g) <= g.ingredients.Keys ==>
              CircularOrFail(g, target, cur, visited, missing) == Ok(Circular(g, target, cur, visited))
    decreases BaseIds(g) + {cur} - visited
  {
    if cur !in visited && cur in g.ingredients && Next(g, cur).Some? && Next(g, cur).value != target {
      CircularOrFailAgrees(g, target, Next(g, cur).value, visited + {cur}, missing);
    }
  }

  // ---------------------------------------------------------------------
  // Concrete stores
  // ---------------------------------------------------------------------

  /**
   * Product 1 uses ingredients 10 and 11, whose prices are both derived from
   * product 2; product 2 uses 1.0 of ingredient 12 priced 1.0.
   */
  function DiamondStore(): Graph
  {
    Graph(map[10 := "dough", 11 := "filling", 12 := "flour"],
          [IngredientPrice(100, 1, 12, Some(1.0), 1.0, 1, None),
           IngredientPrice(101, 2, 10, None, 1.0, 1, Some(2)),
           IngredientPrice(102, 3, 11, None, 1.0, 1, Some(2))],
          [IngredientUsage(1, 1.0, 1, 12, 2),
           IngredientUsage(2, 1.0, 1, 10, 1),
           IngredientUsage(3, 1.0, 1, 11, 1)])
  }

  /**
   * The shared visited set reports a circular dependency on product 2 when
   * product 1 reaches it twice without any cycle: product 2 alone is priced.
   */
  lemma DiamondIsReportedCircular()
    ensures FreshCost(DiamondStore(), 2) == Ok(1.0)
    ensures FreshCost(DiamondStore(), 1) == Err(CircularDependency(2))
    ensures !Circular(DiamondStore(), 1, 10, {}) && !Circular(DiamondStore(), 1, 11, {})
  {
    var g := DiamondStore();
    assert g.prices[..2] == [g.prices[0], g.prices[1]];
    assert g.prices[..2][..1] == [g.prices[0]];
    assert Latest(g.prices, 12) == Some(g.prices[0]);
    assert Latest(g.prices, 10) == Some(g.prices[1]);
    assert Latest(g.prices, 11) == Some(g.prices[2]);
    assert g.usages[..2] == [g.usages[0], g.usages[1]];
    assert g.usages[..2][..1] == [g.usages[0]];
    assert [g.usages[0]][..0] == [];
    assert RowsOf(g, g.usages[..2][..1], 2) == [UsageWithPrice(12, 1.0, Some(1.0), None)];
    assert RowsOf(g, g.usages[..2][..1], 1) == [];
    assert Rows(g, 2) == [UsageWithPrice(12, 1.0, Some(1.0), None)];
    assert Rows(g, 1) == [UsageWithPrice(10, 1.0, None, Some(2)), UsageWithPrice(11, 1.0, None, Some(2))];
    WalkRowsStep(g, 2, 0, {1, 2}, 0.0);
    WalkRowsStep(g, 2, 0, {2}, 0.0);
    assert Walk(g, 2, {1}) == Walked(Ok(1.0), {1, 2});
    assert Walk(g, 2, {}).cost == Ok(1.0);
    var none: set<int> := {};
    assert none + {1} == {1};
    WalkRowsStep(g, 1, 0, {1}, 0.0);
    WalkRowsStep(g, 1, 1, {1, 2}, 1.0);
    assert Walk(g, 1, none) == WalkRows(g, 1, 0, {1}, 0.0);
    assert Add(0.0, 1.0, 1.0) == 1.0;
    assert Walk(g, 1, none) == WalkRows(g, 1, 1, {1, 2}, 1.0);
    assert Walk(g, 2, {1, 2}).cost == Err(CircularDependency(2));
    assert Next(g, 10) == Some(2) && Next(g, 11) == Some(2);
    assert Latest(g.prices, 2) == None;
  }

  /** The per-path walk costs the diamond: product 2 is reached twice, each time off the path, so product 1 costs 2.0. */
  lemma DiamondCostedPerPath()
    ensures PathWalk(DiamondStore(), 2, {}) == Ok(1.0)
    ensures PathWalk(DiamondStore(), 1, {}) == Ok(2.0)
  {
    var g := DiamondStore();
    assert g.prices[..2] == [g.prices[0], g.prices[1]];
    assert g.prices[..2][..1] == [g.prices[0]];
    assert Latest(g.prices, 12) == Some(g.prices[0]);
    assert Latest(g.prices, 10) == Some(g.prices[1]);
    assert Latest(g.prices, 11) == Some(g.prices[2]);
    assert g.usages[..2] == [g.usages[0], g.usages[1]];
    assert g.usages[..2][..1] == [g.usages[0]];
    assert [g.usages[0]][..0] == [];
    assert RowsOf(g, g.usages[..2][..1], 2) == [UsageWithPrice(12, 1.0, Some(1.0), None)];
    assert RowsOf(g, g.usages[..2][..1], 1) == [];
    assert Rows(g, 2) == [UsageWithPrice(12, 1.0, Some(1.0), None)];
    assert Rows(g, 1) == [UsageWithPrice(10, 1.0, None, Some(2)), UsageWithPrice(11, 1.0, None, Some(2))];
    var none: set<int> := {};
    assert none + {1} == {1} && none + {2} == {2};
    PathWalkRowsStep(g, 2, 0, {1, 2}, 0.0);
    PathWalkRowsStep(g, 2, 0, {2}, 0.0);
    assert {1} + {2} == {1, 2};
    assert PathWalk(g, 2, {1}) == Ok(1.0);
    assert PathWalk(g, 2, none) == Ok(1.0);
    PathWalkRowsStep(g, 1, 0, {1}, 0.0);
    PathWalkRowsStep(g, 1, 1, {1}, 1.0);
    assert Add(0.0, 1.0, 1.0) == 1.0 && Add(1.0, 1.0, 1.0) == 2.0;
    assert PathWalk(g, 1, none) == PathWalkRows(g, 1, 0, {1}, 0.0);
  }

  /**
   * Product 1 uses 3.0 of ingredient 10, whose price is derived from product
   * 2; product 2 uses 1.0 of ingredient 11 priced 1.0.
   */
  function DerivedStore(): Graph
  {
    Graph(map[10 := "dough", 11 := "flour"],
          [IngredientPrice(100, 1, 11, Some(1.0), 1.0, 1, None),
           IngredientPrice(101, 2, 10, None, 1.0, 1, Some(2))],
          [IngredientUsage(1, 1.0, 1, 11, 2),
           IngredientUsage(2, 3.0, 1, 10, 1)])
  }

  /** Walking product 1 also visits product 2, whose own cost differs from product 1's. */
  lemma DerivedStoreCosts()
    ensures FreshCost(DerivedStore(), 1) == Ok(3.0)
    ensures FreshCost(DerivedStore(), 2) == Ok(1.0)
    ensures Walk(DerivedStore(), 1, {}).visited == {1, 2}
  {
    var g := DerivedStore();
    assert g.prices[..1] == [g.prices[0]];
    assert Latest(g.prices, 11) == Some(g.prices[0]);
    assert Latest(g.prices, 10) == Some(g.prices[1]);
    assert g.usages[..1] == [g.usages[0]];
    assert [g.usages[0]][..0] == [];
    assert RowsOf(g, g.usages[..1], 2) == [UsageWithPrice(11, 1.0, Some(1.0), None)];
    assert RowsOf(g, g.usages[..1], 1) == [];
    assert Rows(g, 2) == [UsageWithPrice(11, 1.0, Some(1.0), None)];
    assert Rows(g, 1) == [UsageWithPrice(10, 3.0, None, Some(2))];
    WalkRowsStep(g, 2, 0, {1, 2}, 0.0);
    WalkRowsStep(g, 2, 0, {2}, 0.0);
    assert Walk(g, 2, {1}) == Walked(Ok(1.0), {1, 2});
    assert Walk(g, 2, {}).cost == Ok(1.0);
    WalkRowsStep(g, 1, 0, {1}, 0.0);
    var none: set<int> := {};
    assert none + {1} == {1};
    assert Walk(g, 1, none) == WalkRows(g, 1, 0, {1}, 0.0);
    assert Add(0.0, 1.0, 3.0) == 3.0;
    assert Walk(g, 1, {}) == WalkRows(g, 1, 1, {1, 2}, 3.0);
  }

  /** Ingredient 1's price derives from id 5, which is no ingredient. */
  function DanglingStore(): Graph
  {
    Graph(map[1 := "sauce"], [IngredientPrice(100, 1, 1, None, 1.0, 1, Some(5))], [])
  }

  /** The as-written check fails on the dangling id where the intended one answers false. */
  lemma DanglingChainFails(missing: Error)
    ensures CircularOrFail(DanglingStore(), 7, 1, {}, missing) == Err(missing)
    ensures !Circular(DanglingStore(), 7, 1, {})
  {
    var g := DanglingStore();
    assert Next(g, 1) == Some(5) && Next(g, 5) == None;
  }
}
