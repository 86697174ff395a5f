/**
 * Folding joined rows into one entry per key, as both copies of the engine
 * do: `parseIngredientsWithPriceUnitRow` (one entry per ingredient, its
 * price rows as items) and the older `GetProductsWithIngredients` (one entry
 * per product, its usages as items). The fold is specified once, generically,
 * and characterised against an independent description: the distinct keys in
 * order of first appearance, each with the head of its first row and the
 * items of all its rows.
 */
module Grouping {
  import opened Types
  import opened GoUtils

  /** How rows of type `R` are grouped: the key of a row, the key of a head, the head a row starts, the item a row carries. */
  datatype Shape<!R, !H, X> = Shape(key: R -> int, headKey: H -> int, head: R -> H, item: R -> Result<Option<X>>)

  /** A row's head has the row's key. */
  ghost predicate Coherent<R(!new), H, X>(s: Shape<R, H, X>)
  {
    forall r: R :: s.headKey(s.head(r)) == s.key(r)
  }

  function OptSeq<X>(o: Option<X>): seq<X>
  {
    if o.Some? then [o.value] else []
  }

  /** Selects the entry whose head has key `k`. */
  function HeadIs<H, X>(headKey: H -> int, k: int): Grouped<H, X> -> bool
  {
    (e: Grouped<H, X>) => headKey(e.head) == k
  }

  /** One loop step: the row's item goes to the entry with its key, which is appended when new. */
  function AddRow<R, H, X>(out: seq<Grouped<H, X>>, row: R, s: Shape<R, H, X>, item: Option<X>): seq<Grouped<H, X>>
  {
    match FirstIndex(out, HeadIs(s.headKey, s.key(row)))
    case Some(i) => out[i := out[i].(items := out[i].items + OptSeq(item))]
    case None => out + [Grouped(s.head(row), OptSeq(item))]
  }

  /** The grouping loop over `rows`; the first row whose item fails ends it with that error. */
  function GroupBy<R, H, X>(rows: seq<R>, s: Shape<R, H, X>): Result<seq<Grouped<H, X>>>
  {
    if |rows| == 0 then Ok([])
    else match GroupBy(rows[..|rows| - 1], s)
      case Err(e) => Err(e)
      case Ok(out) =>
        match s.item(rows[|rows| - 1])
        case Err(e) => Err(e)
        case Ok(x) => Ok(AddRow(out, rows[|rows| - 1], s, x))
  }

  // ----- the independent description -----

  function KeysOf<R, H, X>(rows: seq<R>, s: Shape<R, H, X>): (ks: seq<int>)
    ensures |ks| == |rows|
    ensures forall n :: 0 <= n < |rows| ==> ks[n] == s.key(rows[n])
  {
    if |rows| == 0 then [] else KeysOf(rows[..|rows| - 1], s) + [s.key(rows[|rows| - 1])]
  }

  /** The distinct elements of `xs` in order of first appearance. */
  function Dedup(xs: seq<int>): seq<int>
  {
    if |xs| == 0 then []
    else
      var d := Dedup(xs[..|xs| - 1]);
      if xs[|xs| - 1] in d then d else d + [xs[|xs| - 1]]
  }

  /** The items of all rows with key `k`, in row order. */
  function ItemsFor<R, H, X>(rows: seq<R>, s: Shape<R, H, X>, k: int): seq<X>
  {
    if |rows| == 0 then []
    else
      var r := rows[|rows| - 1];
      ItemsFor(rows[..|rows| - 1], s, k) + (if s.key(r) == k && s.item(r).Ok? then OptSeq(s.item(r).value) else [])
  }

  /** The head started by the first row with key `k`, if there is one. */
  function HeadFor<R, H, X>(rows: seq<R>, s: Shape<R, H, X>, k: int): Option<H>
  {
    if |rows| == 0 then None
    else
      var h := HeadFor(rows[..|rows| - 1], s, k);
      if h.Some? then h
      else if s.key(rows[|rows| - 1]) == k then Some(s.head(rows[|rows| - 1]))
      else None
  }

  /** `out` has one entry per distinct key, in first-appearance order, with that key's head and items. */
  ghost predicate Describes<R, H, X>(out: seq<Grouped<H, X>>, rows: seq<R>, s: Shape<R, H, X>)
  {
    var d := Dedup(KeysOf(rows, s));
    |out| == |d| &&
    forall n :: 0 <= n < |out| ==>
      HeadFor(rows, s, d[n]) == Some(out[n].head) && out[n].items == ItemsFor(rows, s, d[n])
  }

  lemma {:induction false} DedupMembers(xs: seq<int>, x: int)
    ensures x in Dedup(xs) <==> x in xs
    decreases |xs|
  {
    if |xs| > 0 {
      DedupMembers(xs[..|xs| - 1], x);
      assert xs == xs[..|xs| - 1] + [xs[|xs| - 1]];
    }
  }

  lemma {:induction false} DedupDistinct(xs: seq<int>)
    ensures forall m, n :: 0 <= m < n < |Dedup(xs)| ==> Dedup(xs)[m] != Dedup(xs)[n]
    decreases |xs|
  {
    if |xs| > 0 {
      DedupDistinct(xs[..|xs| - 1]);
    }
  }

  lemma {:induction false} AbsentKey<R, H, X>(rows: seq<R>, s: Shape<R, H, X>, k: int)
    requires k !in KeysOf(rows, s)
    ensures HeadFor(rows, s, k) == None && ItemsFor(rows, s, k) == []
    decreases |rows|
  {
    if |rows| > 0 {
      assert KeysOf(rows, s) == KeysOf(rows[..|rows| - 1], s) + [s.key(rows[|rows| - 1])];
      AbsentKey(rows[..|rows| - 1], s, k);
    }
  }

  lemma {:induction false} PresentKey<R(!new), H, X>(rows: seq<R>, s: Shape<R, H, X>, k: int)
    requires Coherent(s)
    requires k in KeysOf(rows, s)
    ensures HeadFor(rows, s, k).Some? && s.headKey(HeadFor(rows, s, k).value) == k
    decreases |rows|
  {
    var n := |rows| - 1;
    assert KeysOf(rows, s) == KeysOf(rows[..n], s) + [s.key(rows[n])];
    if k in KeysOf(rows[..n], s) {
      PresentKey(rows[..n], s, k);
    } else {
      AbsentKey(rows[..n], s, k);
    }
  }

  /** A failure of the fold on a prefix is the failure of the whole fold. */
  lemma {:induction false} GroupByErrPersists<R, H, X>(rows: seq<R>, s: Shape<R, H, X>, k: nat)
    requires k <= |rows|
    requires GroupBy(rows[..k], s).Err?
    ensures GroupBy(rows, s) == GroupBy(rows[..k], s)
    decreases |rows|
  {
    if k < |rows| {
      var n := |rows| - 1;
      assert rows[..n][..k] == rows[..k];
      GroupByErrPersists(rows[..n], s, k);
    } else {
      assert rows[..k] == rows;
    }
  }

  lemma AddRowFound<R, H, X>(out: seq<Grouped<H, X>>, row: R, s: Shape<R, H, X>, item: Option<X>, i: nat)
    requires FirstIndex(out, HeadIs(s.headKey, s.key(row))) == Some(i)
    ensures AddRow(out, row, s, item) == out[i := out[i].(items := out[i].items + OptSeq(item))]
  {
  }

  lemma AddRowAppended<R, H, X>(out: seq<Grouped<H, X>>, row: R, s: Shape<R, H, X>, item: Option<X>)
    requires FirstIndex(out, HeadIs(s.headKey, s.key(row))) == None
    ensures AddRow(out, row, s, item) == out + [Grouped(s.head(row), OptSeq(item))]
  {
  }

  lemma ExtendLast<H, X>(out: seq<Grouped<H, X>>, g: Grouped<H, X>, extra: seq<X>)
    ensures (out + [g])[|out| := g.(items := g.items + extra)] == out + [g.(items := g.items + extra)]
  {
    var lhs := (out + [g])[|out| := g.(items := g.items + extra)];
    assert forall j :: 0 <= j < |out| ==> lhs[j] == out[j];
  }

  /**
   * Appending `item` to the entry at `target` of `mid`, where `mid` is
   * `before` with the row's entry found at `slot` or freshly appended, is
   * adding the row to `before`.
   */
  lemma AddRowInSlot<R, H, X>(before: seq<Grouped<H, X>>, row: R, s: Shape<R, H, X>, item: Option<X>,
                              slot: Option<nat>, mid: seq<Grouped<H, X>>, target: nat)
    requires slot == FirstIndex(before, HeadIs(s.headKey, s.key(row)))
    requires slot.Some? ==> target == slot.value && mid == before
    requires slot.None? ==> target == |before| && mid == before + [Grouped(s.head(row), [])]
    ensures target < |mid|
    ensures mid[target := mid[target].(items := mid[target].items + OptSeq(item))] == AddRow(before, row, s, item)
    ensures item.None? ==> mid == AddRow(before, row, s, item)
  {
    if slot.Some? {
      AddRowFound(before, row, s, item, target);
      if item.None? {
        assert before[target].(items := before[target].items + []) == before[target];
      }
    } else {
      AddRowAppended(before, row, s, item);
      ExtendLast(before, Grouped(s.head(row), []), OptSeq(item));
      assert [] + OptSeq(item) == OptSeq(item);
    }
  }

  /** One more row: the fold on the longer prefix, from the fold on the shorter one. */
  lemma GroupByStep<R, H, X>(rows: seq<R>, s: Shape<R, H, X>, idx: nat)
    requires idx < |rows|
    ensures GroupBy(rows[..idx + 1], s) ==
      if GroupBy(rows[..idx], s).Err? then GroupBy(rows[..idx], s)
      else if s.item(rows[idx]).Err? then Err(s.item(rows[idx]).error)
      else Ok(AddRow(GroupBy(rows[..idx], s).value, rows[idx], s, s.item(rows[idx]).value))
  {
    assert rows[..idx + 1][..idx] == rows[..idx];
  }

  /**
   * The grouping fold succeeds exactly when every row's item does, and then
   * yields one entry per distinct key in order of first appearance, headed by
   * that key's first row and holding the items of all its rows in order.
   */
  lemma {:induction false} GroupByCharacterized<R(!new), H, X>(rows: seq<R>, s: Shape<R, H, X>)
    requires Coherent(s)
    ensures GroupBy(rows, s).Ok? <==> forall r :: r in rows ==> s.item(r).Ok?
    ensures GroupBy(rows, s).Ok? ==> Describes(GroupBy(rows, s).value, rows, s)
    decreases |rows|
  {
    if |rows| > 0 {
      var n := |rows| - 1;
      var pre, r := rows[..n], rows[n];
      assert rows == pre + [r];
      GroupByCharacterized(pre, s);
      if GroupBy(pre, s).Ok? && s.item(r).Ok? {
        AddRowDescribes(GroupBy(pre, s).value, pre, r, s);
      }
    }
  }

  lemma AddRowDescribes<R(!new), H, X>(out: seq<Grouped<H, X>>, pre: seq<R>, r: R, s: Shape<R, H, X>)
    requires Coherent(s)
    requires s.item(r).Ok?
    requires Describes(out, pre, s)
    ensures Describes(AddRow(out, r, s, s.item(r).value), pre + [r], s)
  {
    if s.key(r) in Dedup(KeysOf(pre, s)) {
      AddRowDescribesKnown(out, pre, r, s);
    } else {
      AddRowDescribesNew(out, pre, r, s);
    }
  }

  /** Each entry of a described grouping is headed by the key it stands for. */
  lemma DescribedHeads<R(!new), H, X>(out: seq<Grouped<H, X>>, pre: seq<R>, s: Shape<R, H, X>)
    requires Coherent(s)
    requires Describes(out, pre, s)
    ensures forall m :: 0 <= m < |out| ==> s.headKey(out[m].head) == Dedup(KeysOf(pre, s))[m]
  {
    var d := Dedup(KeysOf(pre, s));
    forall m | 0 <= m < |out|
      ensures s.headKey(out[m].head) == d[m]
    {
      DedupMembers(KeysOf(pre, s), d[m]);
      PresentKey(pre, s, d[m]);
    }
  }

  /** A row whose key already has an entry extends that entry. */
  lemma AddRowDescribesKnown<R(!new), H, X>(out: seq<Grouped<H, X>>, pre: seq<R>, r: R, s: Shape<R, H, X>)
    requires Coherent(s)
    requires s.item(r).Ok?
    requires Describes(out, pre, s)
    requires s.key(r) in Dedup(KeysOf(pre, s))
    ensures Describes(AddRow(out, r, s, s.item(r).value), pre + [r], s)
  {
    var rows := pre + [r];
    assert rows[..|rows| - 1] == pre;
    var d := Dedup(KeysOf(pre, s));
    var k := s.key(r);
    var x := s.item(r).value;
    assert KeysOf(rows, s) == KeysOf(pre, s) + [k];
    DedupDistinct(KeysOf(pre, s));
    DescribedHeads(out, pre, s);
    var next := AddRow(out, r, s, x);
    var d' := Dedup(KeysOf(rows, s));
    var i :| 0 <= i < |d| && d[i] == k;
    FirstIndexIsLeast(out, HeadIs(s.headKey, k), i);
    assert next == out[i := out[i].(items := out[i].items + OptSeq(x))];
    assert d' == d;
    forall m | 0 <= m < |next|
      ensures HeadFor(rows, s, d'[m]) == Some(next[m].head) && next[m].items == ItemsFor(rows, s, d'[m])
    {
      assert HeadFor(pre, s, d[m]).Some?;
    }
  }

  /** A row with a new key starts a new entry at the end. */
  lemma AddRowDescribesNew<R(!new), H, X>(out: seq<Grouped<H, X>>, pre: seq<R>, r: R, s: Shape<R, H, X>)
    requires Coherent(s)
    requires s.item(r).Ok?
    requires Describes(out, pre, s)
    requires s.key(r) !in Dedup(KeysOf(pre, s))
    ensures Describes(AddRow(out, r, s, s.item(r).value), pre + [r], s)
  {
    var rows := pre + [r];
    assert rows[..|rows| - 1] == pre;
    var d := Dedup(KeysOf(pre, s));
    var k := s.key(r);
    var x := s.item(r).value;
    assert KeysOf(rows, s) == KeysOf(pre, s) + [k];
    DedupMembers(KeysOf(pre, s), k);
    DescribedHeads(out, pre, s);
    var next := AddRow(out, r, s, x);
    var d' := Dedup(KeysOf(rows, s));
    assert FirstIndex(out, HeadIs(s.headKey, k)).None?;
    assert d' == d + [k];
    AbsentKey(pre, s, k);
    forall m | 0 <= m < |next|
      ensures HeadFor(rows, s, d'[m]) == Some(next[m].head) && next[m].items == ItemsFor(rows, s, d'[m])
    {
      if m < |out| {
        assert HeadFor(pre, s, d[m]).Some?;
      }
    }
  }

  // ----- ingredient rows (parseIngredientsWithPriceUnitRow) -----

  function RowKey(row: IngredientRow): int
  {
    row.id
  }

  function IngredientKey(i: Ingredient): int
  {
    i.id
  }

  function RowIngredient(row: IngredientRow): Ingredient
  {
    Ingredient(row.id, row.name)
  }

  function PriceOfRow(row: IngredientRow): IngredientPrice
    requires row.priceId.Some? && row.timeStamp.Some? && row.quantity.Some? && row.unitId.Some?
  {
    IngredientPrice(row.priceId.value, row.timeStamp.value, row.id, row.price,
                    row.quantity.value, row.unitId.value, row.baseProductId)
  }

  /** Newer copy: a price when id, time stamp, quantity and unit are all present; an id alone is an error. */
  function RowPrice(row: IngredientRow): (r: Result<Option<IngredientPrice>>)
    ensures r.Err? <==> row.priceId.Some? && (row.timeStamp.None? || row.quantity.None? || row.unitId.None?)
    ensures r.Err? ==> r.error == MissingPriceFields(row.id)
    ensures r.Ok? && r.value.Some? ==> row.priceId.Some? && r.value.value.id == row.priceId.value
    ensures r.Ok? && r.value.Some? ==> r.value.value.price == row.price && r.value.value.baseProductId == row.baseProductId
    ensures r.Ok? && r.value.None? <==> row.priceId.None?
  {
    if row.priceId.Some? && row.timeStamp.Some? && row.quantity.Some? && row.unitId.Some? then Ok(Some(PriceOfRow(row)))
    else if row.priceId.Some? then Err(MissingPriceFields(row.id))
    else Ok(None)
  }

  /** Older copy: a price whenever the price id is set; the other columns are dereferenced unchecked. */
  function RowPriceOld(row: IngredientRow): (r: Result<Option<IngredientPrice>>)
    ensures r.Ok? && r.value.Some? <==> row.priceId.Some? && row.timeStamp.Some? && row.quantity.Some? && row.unitId.Some?
    ensures r.Err? ==> r.error == NilDereference
    ensures r.Ok? && r.value.None? <==> row.priceId.None?
  {
    if row.priceId.None? then Ok(None)
    else if row.timeStamp.None? || row.quantity.None? || row.unitId.None? then Err(NilDereference)
    else Ok(Some(PriceOfRow(row)))
  }

  const IngredientRows: Shape<IngredientRow, Ingredient, IngredientPrice> :=
    Shape(RowKey, IngredientKey, RowIngredient, RowPrice)

  const IngredientRowsOld: Shape<IngredientRow, Ingredient, IngredientPrice> :=
    Shape(RowKey, IngredientKey, RowIngredient, RowPriceOld)

  /** On rows whose price columns are all null or all set, both copies group identically. */
  lemma {:induction false} OldAndNewGroupAlike(rows: seq<IngredientRow>)
    requires forall r :: r in rows ==> r.priceId.None? || (r.timeStamp.Some? && r.quantity.Some? && r.unitId.Some?)
    requires forall r :: r in rows ==> r.priceId.Some? || (r.timeStamp.None? || r.quantity.None? || r.unitId.None?)
    ensures GroupBy(rows, IngredientRows) == GroupBy(rows, IngredientRowsOld)
    decreases |rows|
  {
    if |rows| > 0 {
      var n := |rows| - 1;
      assert forall r :: r in rows[..n] ==> r in rows;
      OldAndNewGroupAlike(rows[..n]);
      assert rows[n] in rows;
    }
  }

  /**
   * `parseIngredientsWithPriceUnitRow` (newer copy), grouping part: the
   * output slice is grown with `AppendAndGetPtr` and the price is appended
   * through the pointer `FirstPtr` or `AppendAndGetPtr` returned.
   */
  method GroupIngredientRows(rows: seq<IngredientRow>) returns (r: Result<seq<IngredientWithPrices>>)
    ensures r == GroupBy(rows, IngredientRows)
  {
    var out := new Slice<IngredientWithPrices>([]);
    var idx := 0;
    while idx < |rows|
      invariant 0 <= idx <= |rows|
      invariant GroupBy(rows[..idx], IngredientRows) == Ok(out.elems)
    {
      var row := rows[idx];
      GroupByStep(rows, IngredientRows, idx);
      ghost var before := out.elems;
      assert IngredientRows.key(row) == row.id && IngredientRows.headKey == IngredientKey;
      assert IngredientRows.head(row) == Ingredient(row.id, row.name);
      assert IngredientRows.item(row) == RowPrice(row);
      ghost var item := if RowPrice(row).Ok? then RowPrice(row).value else None;
      var slot := FirstPtr(out, HeadIs(IngredientKey, row.id));
      var target: nat;
      if slot.Some? {
        target := slot.value;
      } else {
        target := AppendAndGetPtr(out, Grouped(Ingredient(row.id, row.name), []));
      }
      AddRowInSlot(before, row, IngredientRows, item, slot, out.elems, target);
      if row.priceId.Some? && row.timeStamp.Some? && row.quantity.Some? && row.unitId.Some? {
        var price := IngredientPrice(row.priceId.value, row.timeStamp.value, row.id, row.price,
                                     row.quantity.value, row.unitId.value, row.baseProductId);
        assert item == Some(price);
        out.elems := out.elems[target := out.elems[target].(items := out.elems[target].items + [price])];
      } else if row.priceId.Some? {
        GroupByErrPersists(rows, IngredientRows, idx + 1);
        return Err(MissingPriceFields(row.id));
      } else {
        assert item == None;
      }
      idx := idx + 1;
    }
    assert rows[..idx] == rows;
    return Ok(out.elems);
  }

  /** `slices.IndexFunc`: the least matching index, or -1. */
  method IndexFunc<T>(s: seq<T>, pred: T -> bool) returns (i: int)
    ensures i == (if FirstIndex(s, pred).Some? then FirstIndex(s, pred).value else -1)
  {
    i := 0;
    while i < |s|
      invariant 0 <= i <= |s|
      invariant forall j :: 0 <= j < i ==> !pred(s[j])
    {
      if pred(s[i]) {
        FirstIndexIsLeast(s, pred, i);
        return;
      }
      i := i + 1;
    }
    i := -1;
  }

  /**
   * `parseIngredientsWithPriceUnitRow` (older copy), grouping part: the price
   * is built first, then the entry is found with `IndexFunc` or appended.
   */
  method GroupIngredientRowsOld(rows: seq<IngredientRow>) returns (r: Result<seq<IngredientWithPrices>>)
    ensures r == GroupBy(rows, IngredientRowsOld)
  {
    var out: seq<IngredientWithPrices> := [];
    var idx := 0;
    while idx < |rows|
      invariant 0 <= idx <= |rows|
      invariant GroupBy(rows[..idx], IngredientRowsOld) == Ok(out)
    {
      var row := rows[idx];
      GroupByStep(rows, IngredientRowsOld, idx);
      ghost var before := out;
      assert IngredientRowsOld.key(row) == row.id && IngredientRowsOld.headKey == IngredientKey;
      assert IngredientRowsOld.head(row) == Ingredient(row.id, row.name);
      assert IngredientRowsOld.item(row) == RowPriceOld(row);
      var price: Option<IngredientPrice> := None;
      if row.priceId.Some? {
        if row.timeStamp.None? || row.quantity.None? || row.unitId.None? {
          GroupByErrPersists(rows, IngredientRowsOld, idx + 1);
          return Err(NilDereference);
        }
        price := Some(IngredientPrice(row.priceId.value, row.timeStamp.value, row.id, row.price,
                                      row.quantity.value, row.unitId.value, row.baseProductId));
      }
      assert RowPriceOld(row) == Ok(price);
      var i := IndexFunc(out, HeadIs(IngredientKey, row.id));
      ghost var appended := false;
      if i == -1 {
        AddRowAppended(before, row, IngredientRowsOld, price);
        out := out + [Grouped(Ingredient(row.id, row.name), [])];
        i := |out| - 1;
        appended := true;
      } else {
        AddRowFound(before, row, IngredientRowsOld, price, i);
      }
      assert appended ==> i == |before| && out[i] == Grouped(Ingredient(row.id, row.name), []);
      if price.Some? {
        out := out[i := out[i].(items := out[i].items + [price.value])];
        if appended {
          ExtendLast(before, Grouped(Ingredient(row.id, row.name), []), [price.value]);
          assert [] + [price.value] == [price.value];
        }
      } else if !appended {
        assert before[i].(items := before[i].items + []) == before[i];
        assert before[i := before[i]] == before;
      }
      assert out == AddRow(before, row, IngredientRowsOld, price);
      idx := idx + 1;
    }
    assert rows[..idx] == rows;
    return Ok(out);
  }

  // ----- product rows (older GetProductsWithIngredients) -----

  function ProductRowKey(row: ProductRow): int
  {
    row.id
  }

  function ProductKey(p: Product): int
  {
    p.id
  }

  /** Only id, name and category are copied; price and multiplicator keep Go's zero value. */
  function RowProduct(row: ProductRow): Product
  {
    Product(row.id, row.name, row.categoryId, 0.0, 0.0)
  }

  /** The usage a row carries, with the given price column and base product for its price row. */
  function RowUsageWith(row: ProductRow, price: Option<real>, baseProductId: Option<int>): Result<Option<UsageWithIngredient>>
  {
    if row.usageId.None? then Ok(None)
    else if row.quantity.None? || row.unitId.None? || row.ingredientId.None? || row.productId.None?
         || row.ingredientRowId.None? || row.ingredientName.None? || row.priceId.None? || row.timeStamp.None?
         || row.priceQuantity.None? || row.priceUnitId.None? || row.priceIngredientId.None?
    then Err(NilDereference)
    else Ok(Some(UsageWithIngredient(
      IngredientUsage(row.usageId.value, row.quantity.value, row.unitId.value, row.ingredientId.value, row.productId.value),
      Ingredient(row.ingredientRowId.value, row.ingredientName.value),
      IngredientPrice(row.priceId.value, row.timeStamp.value, row.priceIngredientId.value, price,
                      row.priceQuantity.value, row.priceUnitId.value, baseProductId))))
  }

  /** As written: the price row takes the PRODUCT's price column and no base product. */
  function RowUsageAsWritten(row: ProductRow): Result<Option<UsageWithIngredient>>
  {
    RowUsageWith(row, Some(row.price), None)
  }

  /** Corrected: the price row takes the ingredient's latest-price columns. */
  function RowUsage(row: ProductRow): Result<Option<UsageWithIngredient>>
  {
    RowUsageWith(row, row.ingredientPrice, row.baseProductId)
  }

  const ProductRowsAsWritten: Shape<ProductRow, Product, UsageWithIngredient> :=
    Shape(ProductRowKey, ProductKey, RowProduct, RowUsageAsWritten)

  const ProductRows: Shape<ProductRow, Product, UsageWithIngredient> :=
    Shape(ProductRowKey, ProductKey, RowProduct, RowUsage)

  /** A product priced 9.99 using an ingredient whose latest price is 1.5: as written, its usage shows 9.99. */
  lemma ProductPriceLeaksIntoUsage()
    ensures var row := ProductRow(1, "bread", 9.99, 2.0, 1, Some(5), Some(0.5), Some(1), Some(7), Some(1),
                                  Some(7), Some("flour"), Some(3), Some(100), Some(1.5), Some(1.0), Some(1), Some(7), None);
      RowUsageAsWritten(row).Ok? && RowUsageAsWritten(row).value.Some? &&
      RowUsageAsWritten(row).value.value.price.price == Some(9.99) && row.ingredientPrice == Some(1.5)
  {
  }

  /** Corrected: every usage's price row carries the ingredient's latest price and base product. */
  lemma UsagePriceIsIngredientPrice(row: ProductRow)
    requires RowUsage(row).Ok? && RowUsage(row).value.Some?
    ensures RowUsage(row).value.value.price.price == row.ingredientPrice
    ensures RowUsage(row).value.value.price.baseProductId == row.baseProductId
    ensures RowUsage(row).value.value.usage.productId == row.productId.value
  {
  }

  /**
   * The loop of `GetProductsWithIngredients` (older copy), grouping with
   * `IndexFunc` and `append`, over either row rule: the product-price rule as
   * written or the corrected one.
   */
  method GroupProductRowsBy(rows: seq<ProductRow>, s: Shape<ProductRow, Product, UsageWithIngredient>)
    returns (r: Result<seq<ProductWithIngredients>>)
    requires s == ProductRowsAsWritten || s == ProductRows
    ensures r == GroupBy(rows, s)
  {
    var out: seq<ProductWithIngredients> := [];
    var idx := 0;
    while idx < |rows|
      invariant 0 <= idx <= |rows|
      invariant GroupBy(rows[..idx], s) == Ok(out)
    {
      var row := rows[idx];
      GroupByStep(rows, s, idx);
      ghost var before := out;
      assert s.key(row) == row.id && s.headKey == ProductKey;
      assert s.head(row) == Product(row.id, row.name, row.categoryId, 0.0, 0.0);
      var usage := s.item(row);
      if usage.Err? {
        GroupByErrPersists(rows, s, idx + 1);
        return Err(usage.error);
      }
      var i := IndexFunc(out, HeadIs(ProductKey, row.id));
      ghost var appended := false;
      if i == -1 {
        AddRowAppended(before, row, s, usage.value);
        out := out + [Grouped(Product(row.id, row.name, row.categoryId, 0.0, 0.0), [])];
        i := |out| - 1;
        appended := true;
      } else {
        AddRowFound(before, row, s, usage.value, i);
      }
      assert appended ==> i == |before| && out[i] == Grouped(Product(row.id, row.name, row.categoryId, 0.0, 0.0), []);
      if usage.value.Some? {
        out := out[i := out[i].(items := out[i].items + [usage.value.value])];
        if appended {
          ExtendLast(before, Grouped(Product(row.id, row.name, row.categoryId, 0.0, 0.0), []), [usage.value.value]);
          assert [] + [usage.value.value] == [usage.value.value];
        }
      } else if !appended {
        assert before[i].(items := before[i].items + []) == before[i];
        assert before[i := before[i]] == before;
      }
      assert out == AddRow(before, row, s, usage.value);
      idx := idx + 1;
    }
    assert rows[..idx] == rows;
    return Ok(out);
  }

  /**
   * `GetProductsWithIngredients` (older copy) as written: each usage's price
   * row carries the product's price column and no base product.
   */
  method GroupProductRowsAsWritten(rows: seq<ProductRow>) returns (r: Result<seq<ProductWithIngredients>>)
    ensures r == GroupBy(rows, ProductRowsAsWritten)
  {
    r := GroupProductRowsBy(rows, ProductRowsAsWritten);
  }

  /** `GetProductsWithIngredients` (older copy) corrected: each usage carries its ingredient's latest price. */
  method GroupProductRows(rows: seq<ProductRow>) returns (r: Result<seq<ProductWithIngredients>>)
    ensures r == GroupBy(rows, ProductRows)
  {
    r := GroupProductRowsBy(rows, ProductRows);
  }
}
