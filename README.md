# price_calc cost engine, modelled in Dafny

price_calc keeps a bakery's ingredients, their price history, the units the
prices are given in, and the products made from the ingredients. Its core is
the price-calculation service in Go and the browser helpers of two pages.

The service works out what a product costs. A product's cost sums its
ingredient usages. Each usage is stored in base units. It costs the current
price of its ingredient times its quantity. When that price derives from
another product (a "base product"), it costs that product's cost times the
quantity. Costs are cached in a product-cost table. Changing an ingredient's
price or a usage recomputes the affected products and caches the results.
A cycle check refuses a base product that would make a product depend on
itself.

Two copies of the service exist: services/priceCalc_services.go (newer) and
services/priceCalc.services.go (older). internal/utils/utils.go holds the
slice helpers both use.

The browser side is modelled from scripts/utils.ts (start, cancel and remove
for editable list rows), scripts/product_edit.ts and its older JavaScript
form assets/product_edit.js (the product page: usages, the new-usage form,
the product cost), and scripts/ingredients.ts (the ingredient list with its
editable display price and quantity).

Files:

- `types.dfy`: the stored entities, `Option`, `Result` and the error values.
- `goutils.dfy`: the generic slice helpers.
- `costgraph.dfy`: the store as the cost walk and the cycle check read it. It
  also holds both walks as specification functions and their properties.
- `grouping.dfy`: the row-grouping loops of both copies. They are
  characterised against an independent description.
- `gate.dfy`: the validation, unit conversion and change gate of an
  ingredient update.
- `engine.dfy`: the newer service as a class over its store.
- `engine_old.dfy`: the members of the older copy that differ from the newer
  one.
- `client.dfy`: the values the browser side works on, and the unit-family
  rule.
- `editing.dfy`: the editing helpers.
- `product_edit.dfy`: the TypeScript product page.
- `product_edit_legacy.dfy`: the JavaScript product page.
- `ingredients.dfy`: the ingredient list page.

## Model

| member | source | states |
|---|---|---|
| GoUtils.Ptr | internal/utils/utils.go:3-5 | returns a newly allocated cell that holds the given value |
| GoUtils.FilteredMembers | internal/utils/utils.go:7-14 | an element is in the filtered slice exactly when it is in the input and satisfies the predicate |
| GoUtils.FilteredCounts | internal/utils/utils.go:7-14 | filtering keeps every occurrence of a satisfying element and drops every other element |
| GoUtils.Where | internal/utils/utils.go:7-14 | the loop's output is the order-preserving filter of the input |
| GoUtils.FirstIndex | internal/utils/utils.go:16-23 | the result is the least index whose element satisfies the predicate, or none when no element does |
| GoUtils.First | internal/utils/utils.go:16-23 | `ok` holds exactly when some element matches; the result is the first match, else the zero value |
| GoUtils.FirstPtr | internal/utils/utils.go:25-32 | points at the slot of the first matching element of the slice, or nil |
| GoUtils.AppendAndGetPtr | internal/utils/utils.go:34-37 | the slice grows by exactly the value, and the pointer addresses the new last slot |
| GoUtils.FirstIndexIsLeast | internal/utils/utils.go:16-23 | a matching index with no match before it is the index found |
| CostGraph.Latest | db/query.sql.go:207-230 | the current price of an ingredient is one of its price rows, and none exists only when it has no rows |
| CostGraph.LatestIsNewest | db/query.sql.go:207-230 | in a time-ordered history the current price has the highest time stamp of the ingredient's rows |
| CostGraph.Join | services/priceCalc_services.go:285-288 | a joined usage row keeps the usage's ingredient and quantity; its base product is one some price row names |
| CostGraph.Rows | services/priceCalc_services.go:285-288 | every base product on a product's joined usage rows is one some price row names |
| CostGraph.Walk | services/priceCalc_services.go:275-305 | the walk only grows the shared visited set; a successful walk entered an unvisited product and marked it |
| CostGraph.WalkRows | services/priceCalc_services.go:290-302 | the usage loop only grows the shared visited set |
| CostGraph.WalkMono | services/priceCalc_services.go:275-305 | a successful walk gives the same cost from any smaller visited set and visits the same new products |
| CostGraph.WalkTouchedFresh | services/priceCalc_services.go:254-270 | after a successful walk, the product and every product it visited can be walked again from scratch; the product's cost is unchanged |
| CostGraph.WalkSumsContributions | services/priceCalc_services.go:289-302 | a product's cost is the in-order sum over its usages of price times quantity or sub-product cost times quantity; every usage is priced |
| CostGraph.MissingPriceFails | services/priceCalc_services.go:297-300 | a usage with neither price nor base product makes the walk fail |
| CostGraph.WalkAvoidsVisited | services/priceCalc_services.go:280-283 | a successful walk never reaches a product visited before it started |
| CostGraph.CycleIsReported | services/priceCalc_services.go:280-283 | a product that depends on itself, directly or transitively, never gets a cost |
| CostGraph.Next | services/priceCalc_services.go:141-148 | the next id of the cycle check's chain is a base product some price row names |
| CostGraph.CircularSound | services/priceCalc_services.go:113-149 | a true answer means the base-product chain from the start arrives at the target |
| CostGraph.CircularComplete | services/priceCalc_services.go:113-149 | a chain that first arrives at the target after distinct, unvisited steps is answered true |
| CostGraph.ShortestChainIsSimple | services/priceCalc_services.go:118-121 | the shortest way to the target repeats no id, so the visited set never stops it |
| CostGraph.CircularIffChainArrives | services/priceCalc_services.go:113-149 | the check answers true exactly when the chain from the start arrives at the target |
| CostGraph.CircularOrFailAgrees | services/priceCalc_services.go:131-135 | the check as written agrees with the intended one whenever it answers; it always answers when every base product is an ingredient |
| CostGraph.DiamondIsReportedCircular | services/priceCalc_services.go:280-283 | a product reaching the same base product twice, with no cycle, is reported circular because the visited set is shared |
| CostGraph.PathWalkExtendsWalk | services/priceCalc_services.go:275-305 | with the visited set limited to the current path, every product the shared-set walk costs gets the same cost |
| CostGraph.DiamondCostedPerPath | services/priceCalc_services.go:280-283 | with the visited set limited to the current path, a product reaching the same base product twice is costed: 2.0 in the example |
| CostGraph.DerivedStoreCosts | services/priceCalc_services.go:254-272 | walking a product also visits its base product, whose cost differs from the product's |
| CostGraph.DanglingChainFails | services/priceCalc_services.go:131-135 | the check as written fails on an id with no ingredient rows, where the intended check answers false |
| Grouping.KeysOf | services/priceCalc_services.go:156-161 | one key per row, in row order |
| Grouping.GroupByErrPersists | services/priceCalc_services.go:185-187 | the first failing row ends the grouping with its error |
| Grouping.GroupByCharacterized | services/priceCalc_services.go:155-189 | grouping succeeds exactly when every row's item does; it then yields one entry per distinct key, in first-appearance order, headed by the key's first row and holding the items of all its rows in order |
| Grouping.RowPrice | services/priceCalc_services.go:171-187 | a row has a price when id, time stamp, quantity and unit are all set; a price id alone is the missing-fields error |
| Grouping.RowPriceOld | services/priceCalc.services.go:137-171 | a row with a price id has a price only when its other columns are set; otherwise the dereference fails |
| Grouping.OldAndNewGroupAlike | services/priceCalc.services.go:137-171 | when a row's price columns are all null or all set, both copies group alike |
| Grouping.GroupIngredientRows | services/priceCalc_services.go:155-189 | the pointer-based loop computes the grouping fold |
| Grouping.IndexFunc | services/priceCalc.services.go:137-171 | returns the least matching index, or -1 |
| Grouping.GroupIngredientRowsOld | services/priceCalc.services.go:137-171 | the older index-based loop computes the grouping fold |
| Grouping.ProductPriceLeaksIntoUsage | services/priceCalc.services.go:499-549 | as written, a usage shows the product's price instead of its ingredient's |
| Grouping.UsagePriceIsIngredientPrice | services/priceCalc.services.go:499-549 | corrected, every usage's price row carries its ingredient's latest price and base product, and the usage belongs to the row's product |
| Grouping.GroupProductRowsBy | services/priceCalc.services.go:499-549 | the `IndexFunc`-and-append loop computes the grouping fold over product rows, under either row rule |
| Grouping.GroupProductRowsAsWritten | services/priceCalc.services.go:499-549 | the loop as written is the grouping fold with the product's price column on every usage and no base product |
| Grouping.GroupProductRows | services/priceCalc.services.go:499-549 | the corrected loop is the grouping fold with each usage's ingredient's latest price and base product |
| PriceGate.Validate | services/priceCalc_services.go:432-440 | succeeds exactly when the unit exists and exactly one of price and base product is set; each failure gives its own error |
| PriceGate.BaseUnitPriceScales | services/priceCalc_services.go:442-447 | the stored price per base unit is price times factor over quantity |
| PriceGate.ConvertedPrice | services/priceCalc_services.go:442-447 | a price is recorded exactly when one is given; it is the given price converted to the base unit |
| PriceGate.NeedsInsert | services/priceCalc_services.go:449-456 | no insert is needed exactly when a price row exists and agrees by value in price, base product, quantity and unit |
| PriceGate.AsWrittenAlwaysInserts | services/priceCalc_services.go:450-454 | as written, the pointer comparison inserts for every validated update |
| PriceGate.NeedsInsertImpliesAsWritten | services/priceCalc_services.go:449-456 | the intended gate never inserts when the gate as written would not |
| PriceGate.UnchangedPriceIsInserted | services/priceCalc_services.go:449-456 | re-sending the current price inserts a row as written, though none is needed |
| PriceGate.Refresh | services/priceCalc_services.go:480-484 | the refreshed row carries every price column |
| PriceGate.RefreshReadsBack | services/priceCalc_services.go:480-484 | reading the refreshed row back gives exactly the inserted price row |
| PriceGate.RefreshSettlesGate | services/priceCalc_services.go:449-484 | after the refresh, the same update needs no further insert |
| PriceGate.StaleBaseProductAfterRefresh | services/priceCalc_services.go:480-484 | as written, the refreshed row keeps the old base product and reads back with it |
| PriceGate.RefreshAsWrittenReadsBack | services/priceCalc_services.go:480-484 | as written, the refreshed row reads back as the inserted price row carrying the base product read before the insert |
| Engine.RefreshKeepsFresh | services/priceCalc_services.go:231-273 | recomputing cached costs keeps a cache whose entries are fresh costs fresh |
| Engine.LatestRow | db/query.sql.go:207-230 | the joined row of an ingredient has all of its price columns or none |
| Engine.LatestRowReadsBack | db/query.sql.go:207-230 | reading the joined row back gives the ingredient's latest price row |
| Engine.ResolvedUnderFreshCache | services/priceCalc_services.go:199-229 | with a fresh cache, a derived price is the fresh cost of its base product |
| Engine.ReportedCost | services/priceCalc_services.go:550-558 | the reported cost is the cached one, else a fresh walk's |
| Engine.ReportedIsFresh | services/priceCalc_services.go:542-572 | over a fresh cache, every reported cost is the fresh cost |
| Engine.SyncApplies | services/priceCalc_services.go:419-484 | a committed update leaves the new name and a latest price row agreeing with the converted input |
| Engine.AsWrittenCommitsExtraRow | services/priceCalc_services.go:449-484 | as written, a commit equals the intended one whenever the intended gate inserts; otherwise it holds one extra price row, a copy of the latest one under a new id and time stamp |
| Engine.CommittedRecompute | services/priceCalc_services.go:231-252 | a recomputation outside the update's transaction fails as the walk over the committed store does; if that walk succeeds, its cost insert fails on the lock |
| Engine.AppliedSettlesGate | services/priceCalc_services.go:449-456 | once an update is stored, the same update inserts no price row |
| Engine.SyncedRow | services/priceCalc_services.go:480-484 | the working row after the gate is the joined row the committed store yields |
| Engine.SyncedAfterRename | services/priceCalc_services.go:419-430 | the rename does not affect the gate |
| Engine.AppendKeepsOrder | services/priceCalc_services.go:466-478 | appending a row stamped after every other keeps the history time-ordered |
| Engine.SingleRowGroups | services/priceCalc_services.go:507-518 | the single working row groups into one entry with its price row |
| Engine.PriceCalcService.constructor | services/priceCalc_services.go:85-103 | the service holds the given store, its unit table read once; a store with positive unit factors and time-ordered price rows stamped before the clock gives a valid service |
| Engine.PriceCalcService.CheckCircular | services/priceCalc_services.go:113-149 | computes the cycle check as written, in which an id that is not an ingredient fails with the given error |
| Engine.PriceCalcService.CheckCircularDependency | services/priceCalc_services.go:106-149 | fails only with the index-out-of-range panic; when it answers, it answers whether the base-product chain from the ingredient arrives at the product; it always answers when every base product is an ingredient |
| Engine.PriceCalcService.CalculateProductCost | services/priceCalc_services.go:275-305 | the cost and the visited set it leaves are those of the walk specification |
| Engine.PriceCalcService.CalculateProductCostOnPath | services/priceCalc_services.go:275-305 | corrected: the cost is that of the walk whose visited set holds only the products on the current path |
| Engine.PriceCalcService.Cascade | services/priceCalc_services.go:240-270 | caches the fresh cost of the product and of every product its walk touched; `last` is the cost computed last |
| Engine.PriceCalcService.UpdateProductCost | services/priceCalc_services.go:231-273 | returns the product's fresh cost; caches fresh costs for every product its walk touched and changes no other entry; a fresh cache stays fresh |
| Engine.PriceCalcService.UpdateProductCostAsWritten | services/priceCalc_services.go:254-272 | as written, the returned cost is the last product's, which is the asked-for product's only when the walk touched no other product |
| Engine.PriceCalcService.ResolvePrice | services/priceCalc_services.go:208-224 | a cached base product gives its cached cost and leaves the cache alone; an uncached one gives its fresh cost, computed and cached, or the walk's error; a row without a base product is unchanged |
| Engine.PriceCalcService.ResolveItems | services/priceCalc_services.go:208-225 | resolves every price row of an ingredient in order; the first failure is reported |
| Engine.PriceCalcService.ResolveBaseProductPrices | services/priceCalc_services.go:199-229 | every price row with a base product gets that product's cost, and the cache is only refreshed |
| Engine.PriceCalcService.ParseIngredientRows | services/priceCalc_services.go:151-197 | groups the rows, then resolves their prices; a grouping error leaves the cache alone |
| Engine.PriceCalcService.GetProductsWithCost | services/priceCalc_services.go:542-572 | one entry per product, in order, with the reported cost; a missing cost is computed and cached |
| Engine.PriceCalcService.RecomputeAll | services/priceCalc_services.go:487-499 | every user of the ingredient ends with its fresh cost cached, or the first failure is returned |
| Engine.PriceCalcService.ApplyPrice | services/priceCalc_services.go:442-484 | corrected gate and refresh: a price row is appended exactly when a value differs, and the working row is the joined row of the committed store |
| Engine.PriceCalcService.ApplyPriceAsWritten | services/priceCalc_services.go:442-484 | as written: a price row is always appended, and the working row is the new joined row but for the base product read before the insert |
| Engine.PriceCalcService.SyncIngredient | services/priceCalc_services.go:390-505 | corrected, the recomputation inside the transaction: each error restores the whole state; on success the update is stored and every user's cost is fresh; a failed recomputation is some user's walk error over the updated store |
| Engine.PriceCalcService.SyncIngredientAsWritten | services/priceCalc_services.go:390-505 | as written: the unknown-ingredient and validation errors leave the state alone; a validated update succeeds exactly when no product uses the ingredient, and otherwise fails, rolled back, with some user's walk error over the store before the update, or with the lock error |
| Engine.PriceCalcService.UpdateIngredientWithPrice | services/priceCalc_services.go:390-519 | corrected: on success the update is stored, the result is the ingredient with its one resolved latest price, and every user's cost is fresh; any failure leaves the state alone or comes after the commit |
| Engine.PriceCalcService.UpdateIngredientWithPriceAsWritten | services/priceCalc_services.go:390-519 | as written: succeeds only for an ingredient no product uses, storing the always-inserted price row; the result reads back that row with the base product read before the insert; a used ingredient fails as the as-written sync does, with the state unchanged |
| Engine.PriceCalcService.PutIngredientUsage | services/priceCalc_services.go:714-738 | appends the usage in base units (quantity times factor gives back the input); the product's cost is recomputed, and its failure is reported |
| Engine.PriceCalcService.UpdateIngredientUsage | services/priceCalc_services.go:740-761 | an unknown usage is the no-rows error; otherwise that usage gets the new unit and base quantity and its product is recomputed |
| Engine.PriceCalcService.DeleteIngredientUsage | services/priceCalc_services.go:763-776 | an unknown usage is the no-rows error; otherwise the usage is removed and its product is recomputed |
| EngineOld.CheckCircularDependency | services/priceCalc.services.go:91-131 | fails only with the no-rows error; when it answers, it answers whether the chain arrives at the product; it always answers when every base product is an ingredient |
| EngineOld.ParseIngredientRows | services/priceCalc.services.go:133-198 | groups the rows with the older price rule, then resolves their prices |
| EngineOld.UpdateIngredientWithPrice | services/priceCalc.services.go:342-476 | a missing ingredient is the no-rows error; otherwise the newer update as written, followed by the older parse: success only for an unused ingredient, reading back the new price row with the old base product |
| Client.FamilyOf | scripts/product_edit.ts:60-67 | the units offered are among the known units, and there are none for an unknown unit |
| Client.FamilyContainsUnit | scripts/product_edit.ts:60-67 | a unit is always offered in its own family |
| Client.FamilyIsStable | scripts/product_edit.ts:60-67 | every unit of a family has the same family, so switching within the list keeps the list |
| Client.PricesOf | scripts/product_edit.ts:87 | a null price list reads as empty, a present one as itself |
| Client.Fixed2Bound | scripts/ingredients.ts:79-85 | `toFixed(2)` read back moves a value by at most half a hundredth |
| Client.Fixed2OfHundredths | scripts/ingredients.ts:79-85 | a value with at most two decimals reads back as itself |
| Client.Fixed2Idempotent | scripts/ingredients.ts:79-85 | formatting a value read back from `toFixed(2)` gives the same text again |
| Editing.Start | scripts/utils.ts:8-11 | the backup files the item's copy, taken before the flag flips, under its id; every other entry is unchanged; the item is editing and otherwise unchanged |
| Editing.Cancel | scripts/utils.ts:12-19 | the item stops editing; a saved copy is restored and dropped; without one only the flag changes |
| Editing.StartKeepsKeyedById | scripts/utils.ts:8-11 | starting to edit keeps every saved copy under its own id |
| Editing.CancelUndoesStart | scripts/utils.ts:8-19 | cancelling right after starting gives back the item, not editing, and the backup without its id |
| Editing.OthersKeepTheirBackup | scripts/utils.ts:8-19 | editing one item never touches another item's saved copy |
| Editing.Ids | scripts/utils.ts:21 | one id per item, in list order |
| Editing.EditingHelpers.StartEditing | scripts/utils.ts:8-11 | the backup and the item become `Start` of their old values |
| Editing.EditingHelpers.CancelEditing | scripts/utils.ts:12-19 | the backup and the item become `Cancel` of their old values |
| Editing.EditingHelpers.RemoveItem | scripts/utils.ts:20-23 | removes exactly the first item with the id; without one the list is unchanged |
| ProductEdit.SafeUnitId | scripts/product_edit.ts:69-73 | throws exactly when the ingredient is known and its price list is null; null exactly when the ingredient is unknown or its list is empty; else the unit of its newest price |
| ProductEdit.NewIngredientCostScales | scripts/product_edit.ts:75-82 | zero for an unknown ingredient or unit, a missing amount, or an empty price list; throws exactly on a null price list once those checks pass; otherwise cost times factor equals newest price times amount |
| ProductEdit.ProductCostAppend | scripts/product_edit.ts:84-90 | one more usage adds its own cost |
| ProductEdit.ProductCostIsSum | scripts/product_edit.ts:84-90 | the left fold equals the sum of the usages' costs |
| ProductEdit.ProductCostSkipsUnpriced | scripts/product_edit.ts:84-90 | usages of unknown or unpriced ingredients contribute nothing |
| ProductEdit.ProductCostExample | tests/product_edit.test.ts:30-77 | the test's product costs 19 |
| ProductEdit.ModifyUsage | scripts/product_edit.ts:92-109 | fails exactly when the unit or the ingredient is unknown, with that usage's error; otherwise attaches both, is not editing, and shows the quantity in the usage's unit rounded to two decimals |
| ProductEdit.DisplayShowsEnteredAmount | scripts/product_edit.ts:92-109 | a usage stored as the amount entered, in base units, shows that amount rounded to two decimals: within half a hundredth, and exact for an amount with at most two decimals |
| ProductEdit.ModifyAll | scripts/product_edit.ts:44-48 | succeeds exactly when every usage does, element by element; otherwise fails with the first failing usage's error |
| ProductEdit.CategoryIndex | scripts/product_edit.ts:19 | -1 exactly when the category is absent; else its first position |
| ProductEdit.ProductEditView.constructor | scripts/product_edit.ts:12-26 | the page starts with no usages, the product's category selected, and an empty new-usage form |
| ProductEdit.ProductEditView.Init | scripts/product_edit.ts:28-35 | registers the watcher first; on success the usages are transformed and the listener registered; a usage that throws leaves the usages and the listener as they were |
| ProductEdit.ProductEditView.SetNewIngredientId | scripts/product_edit.ts:37-42 | once the watcher is registered, a changed id sets the unit to the ingredient's safe unit, or 0 for null; a null price list throws and leaves the unit; otherwise the unit stays; the id is always set |
| ProductEdit.ProductEditView.OnIngredientAdded | scripts/product_edit.ts:50-58 | a listening page appends exactly one transformed usage; the cost grows by that usage's cost |
| ProductEditLegacy.FindUnit | assets/product_edit.js:106 | none exactly when no unit has the id; else a unit with that id |
| ProductEditLegacy.FindIngredient | assets/product_edit.js:107 | none exactly when no ingredient has the id; else an ingredient with that id |
| ProductEditLegacy.FamilyListMembers | assets/product_edit.js:19-32 | empty for an unknown unit; else exactly the listed units of the family |
| ProductEditLegacy.FamilyListAgrees | assets/product_edit.js:19-32 | on a unit list and a unit record holding the same units, the list form and the record form offer the same units |
| ProductEditLegacy.SafeUnitId | assets/product_edit.js:37-44 | null exactly when the ingredient is not found or its price list is null or empty; else the unit of its newest price |
| ProductEditLegacy.NewIngredientCostScales | assets/product_edit.js:45-53 | zero for any missing input, a null or empty price list included; otherwise cost times factor equals newest price times amount |
| ProductEditLegacy.ModifyUsage | assets/product_edit.js:105-114 | keeps the usage and attaches the unit and ingredient found, or nothing when none has the id |
| ProductEditLegacy.ProductCostAsWritten | assets/product_edit.js:54-63 | computes the as-written cost, which fails on an usage without an ingredient |
| ProductEditLegacy.ProductCost | assets/product_edit.js:54-63 | computes the corrected cost |
| ProductEditLegacy.CostAsWrittenKeepsError | assets/product_edit.js:56-57 | the first usage without an ingredient ends the loop with the error |
| ProductEditLegacy.CostAsWrittenAgrees | assets/product_edit.js:54-63 | the as-written cost succeeds exactly when every usage has its ingredient, and then equals the corrected cost |
| ProductEditLegacy.MissingIngredientThrows | assets/product_edit.js:57 | a usage of an ingredient not on the page makes the cost fail |
| ProductEditLegacy.CostMatchesLookup | assets/product_edit.js:54-63 | when the attached ingredients are the ones looked up by id, the legacy cost equals the TypeScript page's cost |
| ProductEditLegacy.ProductEditLegacyView.constructor | assets/product_edit.js:8-14 | the usages are transformed one by one, the category selected, and the form empty |
| ProductEditLegacy.ProductEditLegacyView.Init | assets/product_edit.js:84-94 | registers the watcher and the listener |
| ProductEditLegacy.ProductEditLegacyView.SetNewIngredientId | assets/product_edit.js:86-89 | the unit follows the safe unit, null included, whenever that value changes |
| ProductEditLegacy.ProductEditLegacyView.OnIngredientAdded | assets/product_edit.js:90-93 | appends exactly one transformed usage |
| IngredientsPage.PriceRoundTrip | scripts/ingredients.ts:58-67 | storing a shown price gives back the price it was shown for |
| IngredientsPage.DisplayRoundTrip | scripts/ingredients.ts:58-67 | showing a stored price gives back the value typed |
| IngredientsPage.ModifyIngredient | scripts/ingredients.ts:74-88 | an unknown unit leaves the record bare; otherwise marks it base exactly when it has no base product, not editing, and shows its price per unit and its quantity rounded to two decimals |
| IngredientsPage.WithDisplayedPrice | scripts/ingredients.ts:58-67 | only the price changes; it changes to the price the typed display stands for, unless the unit is unknown or the text is not a number |
| IngredientsPage.WithDisplayedQuantity | scripts/ingredients.ts:69-72 | a number typed becomes the quantity; anything else changes nothing |
| IngredientsPage.DisplayPriceInjective | scripts/ingredients.ts:58-67 | for a fixed unit and quantity, two prices show alike exactly when they are equal |
| IngredientsPage.ConfirmShownPrice | scripts/ingredients.ts:58-88 | confirming the shown price stores the price of the rounded display, within half a hundredth of the display before; the row is then what `modifyIngredient` builds from it, and is unchanged exactly when the display needed no rounding |
| IngredientsPage.ConfirmShownQuantity | scripts/ingredients.ts:69-88 | confirming the shown quantity stores it rounded to two decimals, within half a hundredth; it then shows alike, and the row is unchanged exactly when no rounding was needed |
| IngredientsPage.RoundedPriceExample | scripts/ingredients.ts:58-88 | a price of 0.0123 per gram for 1 gram shows as 0.01, and confirming it stores 0.01 |
| IngredientsPage.IngredientsView.constructor | scripts/ingredients.ts:5-17 | the page starts with no rows and no listener |
| IngredientsPage.IngredientsView.Init | scripts/ingredients.ts:19-31 | one transformed row per ingredient, in order, and the listener registered |
| IngredientsPage.IngredientsView.OnIngredientAdded | scripts/ingredients.ts:33-43 | a listening page appends exactly one transformed row |
| IngredientsPage.IngredientsView.SetIngredientPrice | scripts/ingredients.ts:58-67 | only row k changes, and it changes to its displayed-price write-back |
| IngredientsPage.IngredientsView.SetIngredientQuantity | scripts/ingredients.ts:69-72 | only row k changes, and it changes to its displayed-quantity write-back |

## Left out

- Floating point is modelled by exact reals; binary rounding, NaN and infinities are left out. A text field is modelled by what `parseFloat` makes of it, with `None` for NaN. `toFixed(2)` is `Client.Fixed2`, rounding to hundredths, wherever its text is read back as a number: the ingredient list's display price and quantity, and the product page's display amount.
- ProductEdit.NewIngredientCost: returns the cost before `toFixed(2)`; that text is only shown, never read back.
- ProductEdit.ProductCost: returns the cost before `toFixed(2)`, for the same reason.
- ProductEditLegacy.NewIngredientCost: returns the cost before `toFixed(2)`, for the same reason.
- ProductEditLegacy.ProductCost: returns the cost before `toFixed(2)`, for the same reason.
- PriceGate.BaseUnitPrice, PriceGate.ConvertedPrice, Engine.PriceCalcService.ApplyPrice, Engine.PriceCalcService.SyncIngredient and Engine.PriceCalcService.UpdateIngredientWithPrice: these require a nonzero quantity, because the source divides by it and the model has no infinities.
- Engine.PriceCalcService.PutIngredientUsage and Engine.PriceCalcService.UpdateIngredientUsage: these require the unit to be known. The source reads the zero unit for an unknown id and divides by its factor 0.
- ProductEdit.NewIngredientCost, ProductEditLegacy.NewIngredientCost, IngredientsPage.ModifyIngredient, IngredientsPage.WithDisplayedPrice and IngredientsPage.IngredientsView.SetIngredientPrice: these require positive unit factors, which the unit form in handlers/pricecalc.handler.go enforces. SetIngredientPrice and WithDisplayedPrice also require a nonzero quantity.
- Database errors other than "no rows", foreign-key checks and the SQL text itself are left out. Query results are modelled by the functions over the store in `CostGraph` and `Engine`.
- Transactions and locks follow SQLite through mattn/go-sqlite3 with the connection pool `sql.Open` gives (services/priceCalc_services.go:40). Once the update's transaction has written a row it holds the write lock. Queries through `pc.queries` run on other connections: they read the committed store, and their writes fail with "database is locked" after the driver's busy timeout. A rolled-back transaction is modelled as restoring the fields it wrote. The busy timeout's waiting and concurrent requests are not modelled.
- Engine.PriceCalcService.ApplyPrice: models the gate and the refresh as evidently intended. The code as written is Engine.PriceCalcService.ApplyPriceAsWritten.
- Engine.PriceCalcService.SyncIngredient: models the recomputation as evidently intended, inside the transaction and over the updated store. The code as written is Engine.PriceCalcService.SyncIngredientAsWritten.
- Engine.PriceCalcService.UpdateIngredientWithPrice: built on the corrected SyncIngredient. The code as written is Engine.PriceCalcService.UpdateIngredientWithPriceAsWritten.
- Engine.PriceCalcService.CheckCircular: the Go panic on `ingredients[0]` becomes the error result `IndexOutOfRange`. The panic's unwinding, and what the HTTP server makes of it, are not modelled.
- Engine.PriceCalcService.CheckCircularDependency: the panic is an error result, as in CheckCircular.
- Engine.PriceCalcService.CalculateProductCost: keeps the shared visited set, as written, because the cascade caches exactly the products that set collects. The per-path walk is Engine.PriceCalcService.CalculateProductCostOnPath and is not wired into the cascade.
- Iteration over the visited map in `UpdateProductCost` follows an order chosen by the Go runtime. The model picks any element. The users of an ingredient come from the `GetProductsFromIngredient` query. Its SQL, and so its order, is not part of this model, so the model picks any user.
- Engine.PriceCalcService.UpdateProductCost: the corrected cost is used everywhere the source reads its result (price resolution, GetProductsWithCost). The as-written return value is kept in UpdateProductCostAsWritten.
- `GetIngredientWithPrices` and the other thin read, insert and delete wrappers (categories, products, units, `GetProductNames`, `DeleteIngredient`) only pass a query result on, and are not modelled. The rows of the older `GetProductsWithIngredients` are a parameter of Grouping.GroupProductRowsAsWritten and Grouping.GroupProductRows.
- The HTTP handlers, templates, routing, logging and the Vite manifest are not part of this model. The handler's unit rules appear only as the `FactorsPositive` and `UnitsWellFormed` preconditions.
- Browser events, the DOM and Alpine's `$watch` become explicit methods (`Init`, `OnIngredientAdded`, `SetNewIngredientId`) called in place of the event.
- In scripts/ingredients.ts a row's price object is shared with the page data by a shallow spread. The model writes the row only, so this aliasing is not captured.
- Client.FamilyOf returns a set, so the order `Object.values` gives is not modelled. ProductEditLegacy.FamilyList keeps list order.
- The JavaScript page's loose `==` in `getSafeUnitIdFromIngredient` is modelled as numeric equality of ids.
- The editing helpers are modelled once, generically. The JavaScript page's inline start and cancel are the same logic and are not modelled again.

## Findings

| source | as written | input that shows it | evidently intended | confidence | as-written member | corrected member |
|---|---|---|---|---|---|---|
| services/priceCalc_services.go:254-272 | `UpdateProductCost` reuses `cost` inside the cascade loop and returns it, so the result is the last recomputed product's cost | product 1 uses 3.0 of an ingredient priced from product 2, and product 2 costs 1.0: product 1 costs 3.0, but the loop skips product 1, recomputes product 2 and returns 1.0 | the cost of the product asked for | high, not executed | Engine.PriceCalcService.UpdateProductCostAsWritten, CostGraph.DerivedStoreCosts | Engine.PriceCalcService.UpdateProductCost |
| services/priceCalc_services.go:450-454 | the gate compares the price and base-product pointers by address, and these never alias | re-sending the current price (1.5 for 1 of a factor-1 unit) inserts a new identical price row | insert only when a value differs | high, not executed | PriceGate.NeedsInsertAsWritten, PriceGate.UnchangedPriceIsInserted, PriceGate.AsWrittenAlwaysInserts, Engine.PriceCalcService.ApplyPriceAsWritten, Engine.AsWrittenCommitsExtraRow | PriceGate.NeedsInsert, Engine.PriceCalcService.ApplyPrice |
| services/priceCalc_services.go:480-484 | after inserting a price row, the working row's base product is not refreshed | a price based on product 16 changed to product 17 is returned still naming product 16 | every price column refreshed | high, not executed | PriceGate.RefreshAsWritten, PriceGate.StaleBaseProductAfterRefresh, PriceGate.RefreshAsWrittenReadsBack, Engine.PriceCalcService.ApplyPriceAsWritten | PriceGate.Refresh, PriceGate.RefreshReadsBack, PriceGate.RefreshSettlesGate, Engine.PriceCalcService.ApplyPrice |
| services/priceCalc_services.go:131-135 | `checkCircular` indexes `ingredients[0]` before checking the error, and a many-row query never returns "no rows" | an ingredient priced from product 5, which is not an ingredient id: the check indexes an empty slice | a missing ingredient ends the chain with false | high, not executed | CostGraph.CircularOrFail, CostGraph.DanglingChainFails, Engine.PriceCalcService.CheckCircular | CostGraph.Circular, CostGraph.CircularIffChainArrives |
| services/priceCalc.services.go:524 | the older `GetProductsWithIngredients` gives each usage's price row the product's price column | bread priced 9.99 using an ingredient whose latest price is 1.5 shows the usage at 9.99 | the ingredient's latest price | medium, not executed | Grouping.RowUsageAsWritten, Grouping.GroupProductRowsAsWritten, Grouping.ProductPriceLeaksIntoUsage | Grouping.RowUsage, Grouping.GroupProductRows, Grouping.UsagePriceIsIngredientPrice |
| assets/product_edit.js:57 | `productCost` reads `usage.ingredient.prices` where `modifyIngredientUsage` may have attached no ingredient | a usage of ingredient 7 when the page lists no ingredient 7 throws a TypeError | skip that usage, as `ingredient?.prices` does in scripts/product_edit.ts:87 | high, not executed | ProductEditLegacy.CostAsWritten, ProductEditLegacy.ProductCostAsWritten, ProductEditLegacy.MissingIngredientThrows | ProductEditLegacy.Cost, ProductEditLegacy.ProductCost, ProductEditLegacy.CostAsWrittenAgrees |
| services/priceCalc_services.go:486-499 | the products using the ingredient are recomputed through `pc.queries`, outside the open transaction: the walk reads the store as committed before the update, and the cost insert waits on the transaction's write lock | an update of an ingredient that one product uses, whose walk succeeds: the cost insert fails with "database is locked" and the whole update is rolled back | recompute inside the transaction, over the updated store | medium, not executed | Engine.PriceCalcService.SyncIngredientAsWritten, Engine.PriceCalcService.UpdateIngredientWithPriceAsWritten, Engine.CommittedRecompute, EngineOld.UpdateIngredientWithPrice | Engine.PriceCalcService.SyncIngredient, Engine.PriceCalcService.UpdateIngredientWithPrice |
| services/priceCalc_services.go:280-283 | one visited map is shared by every branch of the walk, so a product reached along two branches is reported as a circular dependency | product 1 uses ingredients 10 and 11, both priced from product 2, which costs 1.0: the walk fails with "circular dependency detected on product 2" | mark only the products on the current path | high, not executed | CostGraph.Walk, CostGraph.DiamondIsReportedCircular | CostGraph.PathWalkExtendsWalk, CostGraph.DiamondCostedPerPath, Engine.PriceCalcService.CalculateProductCostOnPath |
