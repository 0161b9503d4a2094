# Fruit vendor core, modelled in Dafny

A fruit-drink vendor sells blended drinks in three flavors (strawberry,
banana, mango) and three sizes (small 200 ml, medium 300 ml, large 500 ml).
A recipe (flavor and size) turns into ingredient amounts by fixed per-100 ml
rates: blended fruit, ice, condensed milk and sugar. An inventory store
keeps a non-negative quantity per ingredient and refuses any reduction it
cannot cover. Pricing adds a 60% margin to the ingredient cost and rounds up
to the next five cents; a mixed drink costs the mean single-flavor price
plus 10%, again rounded up. Every sale is appended to a ledger that answers
per-date queries and daily reports. The vendor service runs a sale as check,
then decrement, then price, then record: a shortfall refuses the sale before
anything changes.

Modules, one per file:

- `Catalog` (`catalog.dfy`): ingredients with units, flavors with their fruit
  and fruit density, sizes with volumes.
- `Recipes` (`recipes.dfy`): the recipe value and its ingredient amounts.
- `Errors` (`errors.dfy`): the two failure kinds (`InsufficientInventory`
  with ingredient, required and available amounts; `InvalidArgument`) and
  the `Result`/`Outcome` values that carry them instead of exceptions.
- `Sales` (`sales.dfy`): the immutable sale record and its checked
  constructor.
- `Inventory` (`inventory.dfy`): the stock as a map and the
  `InMemoryInventoryRepository` class that updates it in place.
- `Pricing` (`pricing.dfy`): cost table, margin, nickel rounding, mixed-drink
  price and profit margin, as functions (the pricing service never changes
  after construction).
- `Ledger` (`ledger.dfy`): date filtering and revenue sums, and the
  `InMemorySalesRepository` class that appends sales.
- `Reports` (`reports.dfy`): the daily sales report and its average.
- `VendorRules` (`vendor_rules.dfy`): what the vendor service computes,
  stated as functions of the stock and the order (first shortfall, the
  apportioning of a mixed drink, the low-stock list), with their lemmas.
- `Vendor` (`vendor.dfy`): the `StandardVendorService` class, whose loops
  are proved against `VendorRules`.
- `RealArith` (`arith.dfy`): three facts about real products used by the
  proofs.

Amounts, costs and prices are Dafny `real`s. Java's `Math.ceil` is written
through `Floor`. The calendar date of a sale is a day number, compared only
for equality.

## Model

| member | source | states |
|---|---|---|
| Catalog.Ordinal | src/main/java/org/example/vendor/model/Ingredient.java:6-15 | each ingredient sits at exactly one position of the declaration-order list |
| Catalog.AllIngredientsExactlyOnce | src/main/java/org/example/vendor/model/Ingredient.java:6-15 | there are exactly six ingredients and the list names every one of them exactly once |
| Catalog.OrdinalAt | src/main/java/org/example/vendor/model/Ingredient.java:6-15 | the ingredient at position k of the declaration order has ordinal k |
| Catalog.Unit | src/main/java/org/example/vendor/model/Ingredient.java:6-31 | every unit is "g" or "ml", and it is "ml" exactly for ice and condensed milk |
| Catalog.FruitOf | src/main/java/org/example/vendor/model/DrinkFlavor.java:5-7 | a flavor's fruit is never ice, condensed milk or sugar, and it is measured in grams |
| Catalog.FruitOfInjective | src/main/java/org/example/vendor/model/DrinkFlavor.java:5-7 | two flavors share a fruit exactly when they are the same flavor |
| Catalog.GramsPer100ml | src/main/java/org/example/vendor/model/DrinkFlavor.java:5-7 | fruit density lies between 100 and 140 g per 100 ml, so it is positive |
| Catalog.VolumeMl | src/main/java/org/example/vendor/model/DrinkSize.java:5-7 | every volume is positive and a whole number of 100 ml |
| Catalog.VolumesIncrease | src/main/java/org/example/vendor/model/DrinkSize.java:5-7 | one size comes before another in declaration order exactly when its volume is smaller |
| Recipes.RequiredIngredients | src/main/java/org/example/vendor/model/Recipe.java:29-49 | the amounts have exactly four keys (the flavor's fruit, ice, condensed milk, sugar) and every amount is positive |
| Recipes.RequiredIsLinearInVolume | src/main/java/org/example/vendor/model/Recipe.java:11-14 | every amount equals the drink's volume times a per-ml rate that depends on the flavor alone |
| Recipes.RequiredScalesWithSize | src/main/java/org/example/vendor/model/Recipe.java:32-46 | a size's amounts are the small drink's amounts times the ratio of the volumes |
| Recipes.BaseIngredientsIgnoreFlavor | src/main/java/org/example/vendor/model/Recipe.java:44-46 | ice, condensed milk and sugar amounts do not depend on the flavor |
| Recipes.SmallDrinkIce | src/main/java/org/example/vendor/model/Recipe.java:32-44 | a small drink of any flavor needs exactly 60 ml of ice |
| Recipes.MediumStrawberryRequirements | src/main/java/org/example/vendor/model/Recipe.java:32-46 | a medium strawberry drink needs 150 g strawberries, 90 ml ice, 60 ml condensed milk and 24 g sugar |
| Recipes.RecipeEquality | src/main/java/org/example/vendor/model/Recipe.java:59-65 | two recipes are equal exactly when flavor and size are equal |
| Sales.NewSale | src/main/java/org/example/vendor/model/Sale.java:16-24 | a negative price is refused with an invalid-argument error; otherwise the sale keeps exactly the given recipe, time and price, and is valid |
| Inventory.Quantity | src/main/java/org/example/vendor/repository/InMemoryInventoryRepository.java:21-23 | an ingredient never stored has quantity zero; a non-negative stock yields non-negative quantities |
| Inventory.Consumed | src/main/java/org/example/vendor/service/StandardVendorService.java:40-42 | after a sale every required ingredient is lower by exactly its amount and every other ingredient keeps its quantity |
| Inventory.ConsumedStaysNonNegative | src/main/java/org/example/vendor/service/StandardVendorService.java:40-42 | taking out amounts the stock covers leaves every quantity non-negative |
| Inventory.DrainedAt | src/main/java/org/example/vendor/service/StandardVendorService.java:40-42 | after the first k reductions in declaration order, exactly the ingredients before position k have lost their required amount |
| Inventory.DrainedIsConsumed | src/main/java/org/example/vendor/service/StandardVendorService.java:40-42 | the complete run of per-ingredient reductions leaves the stock described by `Consumed` |
| Inventory.InitialStock | src/main/java/org/example/vendor/repository/InMemoryInventoryRepository.java:61-69 | the starting stock holds every ingredient, and no quantity is negative |
| Inventory.InMemoryInventoryRepository.constructor | src/main/java/org/example/vendor/repository/InMemoryInventoryRepository.java:15-18 | a new store satisfies the non-negativity invariant and holds the starting quantities |
| Inventory.InMemoryInventoryRepository.GetQuantity | src/main/java/org/example/vendor/repository/InMemoryInventoryRepository.java:21-23 | zero for an ingredient never stored; never negative in a valid store |
| Inventory.InMemoryInventoryRepository.SetQuantity | src/main/java/org/example/vendor/repository/InMemoryInventoryRepository.java:26-31 | succeeds exactly when the quantity is non-negative; on failure nothing changes; on success only that ingredient is overwritten; the invariant is kept |
| Inventory.InMemoryInventoryRepository.ReduceQuantity | src/main/java/org/example/vendor/repository/InMemoryInventoryRepository.java:34-48 | succeeds exactly when 0 <= amount <= quantity on hand; on failure nothing changes; on success only that ingredient drops by the amount; the invariant is kept |
| Inventory.InMemoryInventoryRepository.IsAvailable | src/main/java/org/example/vendor/repository/InMemoryInventoryRepository.java:51-53 | true exactly when the quantity on hand is at least the amount; always true for a non-positive amount in a valid store |
| Inventory.InMemoryInventoryRepository.GetAllInventory | src/main/java/org/example/vendor/repository/InMemoryInventoryRepository.java:56-58 | the snapshot agrees with `GetQuantity` on every ingredient and is non-negative in a valid store |
| Inventory.InMemoryInventoryRepository.InitializeInventory | src/main/java/org/example/vendor/repository/InMemoryInventoryRepository.java:61-69 | the store holds the starting quantities and the invariant holds |
| Pricing.IngredientCost | src/main/java/org/example/vendor/service/StandardPricingService.java:19-27 | every ingredient has a positive unit cost of at most 0.010 |
| Pricing.CostOver | src/main/java/org/example/vendor/service/StandardPricingService.java:31-37 | the cost of non-negative amounts is non-negative, and positive when some listed ingredient has a positive amount |
| Pricing.RecipeCostPositive | src/main/java/org/example/vendor/service/StandardPricingService.java:31-37 | every drink has a positive ingredient cost |
| Pricing.CostIsSumOfLines | src/main/java/org/example/vendor/service/StandardPricingService.java:31-37 | total cost is the sum of the six unit-cost-times-amount lines, whatever the order of summation |
| Pricing.RecipeCostIsSumOfFour | src/main/java/org/example/vendor/service/StandardPricingService.java:31-37 | a drink's cost is unit cost times amount summed over its fruit, ice, condensed milk and sugar |
| Pricing.Ceil | src/main/java/org/example/vendor/service/StandardPricingService.java:39 | the result is the integer n with x <= n < x + 1 |
| Pricing.RoundUpToNickel | src/main/java/org/example/vendor/service/StandardPricingService.java:39 | the result is a multiple of 0.05 in [x, x + 0.05) |
| Pricing.RoundUpToNickelUnique | src/main/java/org/example/vendor/service/StandardPricingService.java:39 | it is the only multiple of 0.05 in [x, x + 0.05) |
| Pricing.CalculatePrice | src/main/java/org/example/vendor/service/StandardPricingService.java:30-40 | the price is a positive multiple of 0.05 with cost × 1.6 <= price < cost × 1.6 + 0.05 |
| Pricing.MediumStrawberryPrice | src/main/java/org/example/vendor/service/StandardPricingService.java:19-40 | a medium strawberry drink costs 1.614 and is priced 2.60 |
| Pricing.SumPrices | src/main/java/org/example/vendor/service/StandardPricingService.java:49-55 | the sum of single-flavor prices is non-negative, and positive for a non-empty selection |
| Pricing.CalculateMixedDrinkPrice | src/main/java/org/example/vendor/service/StandardPricingService.java:43-59 | an empty selection fails with an invalid-argument error and only it; otherwise the price is a positive multiple of 0.05 in [mean × 1.10, mean × 1.10 + 0.05) |
| Pricing.MixedPriceOfOneFlavor | src/main/java/org/example/vendor/service/StandardPricingService.java:43-59 | a one-flavor mix is that flavor's price plus 10%, rounded up to the nickel |
| Pricing.CalculateProfitMargin | src/main/java/org/example/vendor/service/StandardPricingService.java:67-74 | with a positive cost the margin lies in [37.5, 100); with no cost it is 0 |
| Pricing.ProfitMarginRange | src/main/java/org/example/vendor/service/StandardPricingService.java:67-74 | every drink's margin lies in [37.5, 100) |
| Pricing.MarginBounds | src/main/java/org/example/vendor/service/StandardPricingService.java:73 | any price at least 1.6 times a positive cost gives a margin in [37.5, 100) |
| Ledger.SalesOnDate | src/main/java/org/example/vendor/repository/InMemorySalesRepository.java:26-30 | the result holds exactly the ledger's sales dated on the given date, and is no longer than the ledger |
| Ledger.TotalRevenueNonNegative | src/main/java/org/example/vendor/repository/InMemorySalesRepository.java:38-42 | valid sales never sum to a negative revenue |
| Ledger.SalesOnDateAppend | src/main/java/org/example/vendor/repository/InMemorySalesRepository.java:26-30 | filtering a concatenation is the concatenation of the filtered parts, so insertion order is kept |
| Ledger.TotalRevenueAppend | src/main/java/org/example/vendor/repository/InMemorySalesRepository.java:38-42 | revenue is additive over concatenation |
| Ledger.SalesOnOwnDate | src/main/java/org/example/vendor/repository/InMemorySalesRepository.java:26-30 | sales all dated d pass the filter for d unchanged |
| Ledger.SalesOnOtherDate | src/main/java/org/example/vendor/repository/InMemorySalesRepository.java:26-30 | sales all dated d contribute nothing to any other date |
| Ledger.RecordBatchOnDate | src/main/java/org/example/vendor/repository/InMemorySalesRepository.java:21-47 | recording N sales dated d raises d's count by N and its revenue by their price sum; every other date sees the same sales |
| Ledger.InMemorySalesRepository.constructor | src/main/java/org/example/vendor/repository/InMemorySalesRepository.java:16-18 | a new ledger is empty and valid |
| Ledger.InMemorySalesRepository.RecordSale | src/main/java/org/example/vendor/repository/InMemorySalesRepository.java:21-23 | the sale is appended at the end and all earlier entries are kept |
| Ledger.InMemorySalesRepository.GetSalesByDate | src/main/java/org/example/vendor/repository/InMemorySalesRepository.java:26-30 | the result holds exactly the recorded sales of that date |
| Ledger.InMemorySalesRepository.GetAllSales | src/main/java/org/example/vendor/repository/InMemorySalesRepository.java:33-35 | the result equals the ledger entry by entry, in insertion order |
| Ledger.InMemorySalesRepository.GetTotalRevenueByDate | src/main/java/org/example/vendor/repository/InMemorySalesRepository.java:38-42 | the revenue is the price sum of that date's sales and is non-negative in a valid ledger |
| Ledger.InMemorySalesRepository.GetSalesCountByDate | src/main/java/org/example/vendor/repository/InMemorySalesRepository.java:45-47 | the count is the number of that date's sales and never exceeds the ledger's length |
| Reports.NewDailySalesReport | src/main/java/org/example/vendor/service/DailySalesReport.java:15-20 | the report keeps the date and the sales, counts them, sums their prices, and the sum is non-negative for valid sales |
| Reports.AverageOrderValue | src/main/java/org/example/vendor/service/DailySalesReport.java:38-40 | zero when there are no sales; otherwise average × count equals revenue |
| Reports.RevenueAtMostCountTimesMax | src/main/java/org/example/vendor/service/DailySalesReport.java:18-19 | revenue never exceeds count times any upper bound on the prices |
| Reports.AverageWithinPrices | src/main/java/org/example/vendor/service/DailySalesReport.java:38-40 | with valid sales, the average order value lies between zero and the largest price |
| Reports.ReportAfterBatch | src/main/java/org/example/vendor/service/DailySalesReport.java:15-20 | after recording a batch dated d, d's report counts the batch and adds its price sum |
| VendorRules.FirstShortfallUnique | src/main/java/org/example/vendor/service/StandardVendorService.java:134-144 | the reported shortfall (ingredient, required, available) is determined by the stock and the requirements |
| VendorRules.ShortfallMeansNotCovered | src/main/java/org/example/vendor/service/StandardVendorService.java:134-144 | a shortfall report implies the stock does not cover the requirements |
| VendorRules.Share | src/main/java/org/example/vendor/service/StandardVendorService.java:98-99 | a flavor's share of an ingredient is non-negative, and positive exactly when its full-size recipe needs that ingredient |
| VendorRules.MixedKeysExplicit | src/main/java/org/example/vendor/service/StandardVendorService.java:92-101 | a mix needs ice, condensed milk, sugar and each selected flavor's fruit, and nothing else |
| VendorRules.MixedAmountsPositive | src/main/java/org/example/vendor/service/StandardVendorService.java:92-101 | every total amount of a mix is positive |
| VendorRules.MixedBaseEqualsSingleDrink | src/main/java/org/example/vendor/service/StandardVendorService.java:92-101 | ice, condensed milk and sugar in a mix total exactly one drink's worth, however many flavors are selected |
| VendorRules.MixedFruitAmount | src/main/java/org/example/vendor/service/StandardVendorService.java:92-101 | a fruit's total in a mix is its flavor's full-size amount times the flavor's multiplicity divided by the number of selections |
| VendorRules.MixOfOneIsPlainDrink | src/main/java/org/example/vendor/service/StandardVendorService.java:92-101 | a one-flavor mix needs exactly what the plain drink needs |
| VendorRules.CountIsMultiplicity | src/main/java/org/example/vendor/service/StandardVendorService.java:94 | counting selections of a flavor gives its multiplicity in the selection |
| VendorRules.MergeSharesAt | src/main/java/org/example/vendor/service/StandardVendorService.java:98-100 | after the first j merge steps, an ingredient holds what it held before plus its share once it has been reached, and is present exactly when it was or has been merged |
| VendorRules.CombinedStep | src/main/java/org/example/vendor/service/StandardVendorService.java:94-101 | merging flavor k's shares into the totals of the flavors before it gives the totals of the flavors up to k |
| VendorRules.Dedup | src/main/java/org/example/vendor/service/StandardVendorService.java:73-75 | the result has the same members as its input and no repeats |
| VendorRules.DedupKeepsFirstSeenOrder | src/main/java/org/example/vendor/service/StandardVendorService.java:73-75 | the result lists its members in the order of their first occurrence in the input |
| VendorRules.FlaggedMembership | src/main/java/org/example/vendor/service/StandardVendorService.java:65-77 | an ingredient is flagged in the scan exactly when it is scanned and low for one of the flavors |
| VendorRules.ScanFlavorDedup | src/main/java/org/example/vendor/service/StandardVendorService.java:69-77 | appending flagged ingredients under a contains check extends the repeat-free list exactly as removing repeats from the longer flagged list would |
| VendorRules.LowStockMembership | src/main/java/org/example/vendor/service/StandardVendorService.java:62-81 | an ingredient is reported low exactly when some flavor's medium recipe, made threshold times, needs more of it than is on hand |
| VendorRules.LowStockEmptyIffCovered | src/main/java/org/example/vendor/service/StandardVendorService.java:62-81 | nothing is reported low exactly when the stock covers threshold medium drinks of every flavor |
| VendorRules.FreshInventoryNotLowAtFour | src/main/java/org/example/vendor/repository/InMemoryInventoryRepository.java:61-69 | the starting stock reports nothing low at a threshold of four drinks |
| VendorRules.LownessFor | src/main/java/org/example/vendor/service/StandardVendorService.java:66-73 | the per-flavor test over the medium recipe is the low-stock test |
| Vendor.StandardVendorService.constructor | src/main/java/org/example/vendor/service/StandardVendorService.java:18-24 | the service uses the two given stores and starts valid |
| Vendor.StandardVendorService.GetCurrentInventory | src/main/java/org/example/vendor/service/StandardVendorService.java:27-29 | the snapshot agrees with the store on every ingredient and is non-negative |
| Vendor.StandardVendorService.CanMakeDrink | src/main/java/org/example/vendor/service/StandardVendorService.java:55-59 | true exactly when the stock covers every required amount; reads only |
| Vendor.StandardVendorService.ValidateInventoryAvailability | src/main/java/org/example/vendor/service/StandardVendorService.java:134-144 | passes exactly when the stock covers the requirements; a failure reports the first short ingredient with its required and available amounts |
| Vendor.StandardVendorService.ReduceAll | src/main/java/org/example/vendor/service/StandardVendorService.java:40-42 | the per-ingredient reductions, none refused, leave the stock lowered by exactly the required amounts and still non-negative |
| Vendor.StandardVendorService.SellDrink | src/main/java/org/example/vendor/service/StandardVendorService.java:32-52 | succeeds exactly when the drink can be made; a refusal reports the first shortfall and changes neither store; a success lowers the stock by the recipe's amounts, appends one sale with the recipe and its price, and returns it |
| Vendor.StandardVendorService.CombineRequirements | src/main/java/org/example/vendor/service/StandardVendorService.java:92-101 | the merged totals are the mix's requirements: each flavor's full-size amounts divided by the number of selections, summed per ingredient |
| Vendor.StandardVendorService.MergeRequirements | src/main/java/org/example/vendor/service/StandardVendorService.java:98-100 | merging one flavor's amounts divided by n gives the running totals after that flavor |
| Vendor.StandardVendorService.SellMixedDrink | src/main/java/org/example/vendor/service/StandardVendorService.java:84-121 | an empty selection is refused with an invalid-argument error; otherwise it succeeds exactly when the stock covers the mix's requirements; a refusal changes nothing; a success lowers the stock by the mix's requirements and records a sale of the first flavor's recipe at the mixed price |
| Vendor.StandardVendorService.GetLowStockIngredients | src/main/java/org/example/vendor/service/StandardVendorService.java:62-81 | the list is the repeat-free, first-seen-order low-stock list: an ingredient is in it exactly when some flavor's medium recipe made threshold times exceeds its stock, and none appears twice |
| Vendor.StandardVendorService.FlagLowFor | src/main/java/org/example/vendor/service/StandardVendorService.java:69-77 | one flavor's pass appends, in ingredient order, each low ingredient not yet listed |
| Vendor.StandardVendorService.GetDailySalesReport | src/main/java/org/example/vendor/service/StandardVendorService.java:124-127 | the report is for the given date, holds exactly that date's sales, and its totals equal the ledger's count and revenue for the date |
| Vendor.StandardVendorService.GetAllSales | src/main/java/org/example/vendor/service/StandardVendorService.java:130-132 | the result equals the ledger entry by entry, in insertion order |

## Left out

- Console application, output formatter and the four service and repository
  interfaces: menu I/O, printing, and declarations without logic.
- Display names, `toString` and exception messages: string rendering only.
  The unit of measure is kept.
- IEEE-754 doubles: amounts, costs and prices are exact reals, so binary
  rounding error in sums and products is not captured.
- The clock: `LocalDateTime.now()` becomes a `DateTime` parameter of the
  two sale operations; a date is a day number compared for equality.
- Null checks (`Objects.requireNonNull`): Dafny values and references are
  never null.
- HashMap iteration order: the ingredient map of a single recipe is a
  `HashMap`, whose order for enum keys is not specified. The model visits
  ingredients in declaration order everywhere. This decides which shortfall
  `SellDrink` reports when several ingredients are short, and the order
  within one flavor of the low-stock list. The mixed-drink totals are an
  `EnumMap`, so declaration order is exact there.
- Order of summation in costs and revenues: with exact reals the order plays
  no part (`Pricing.CostIsSumOfLines`).
- `getIngredientCost`'s fallback of zero for an unmapped ingredient: every
  ingredient has an entry in the cost table, so the fallback cannot occur.
- Exceptions from `reduceQuantity` inside a sale: the shortfall check runs
  first, so they cannot occur; `Vendor.StandardVendorService.ReduceAll`
  therefore requires coverage instead of modelling a failure half-way.
- `Sales.NewSale`'s check surfaces as the requirement `ValidSale` of
  `Ledger.InMemorySalesRepository.RecordSale`: every Java `Sale` object has
  passed that check, so only valid sales can be recorded.
- Pricing service state: the cost table is filled once and never changed, so
  pricing is a set of functions rather than a class.
- The two identical reduce loops of `sellDrink` and `sellMixedDrink` are one
  method, `Vendor.StandardVendorService.ReduceAll`; the inner loops of the
  mixed-drink merge and of the low-stock scan are methods of their own
  (`MergeRequirements`, `FlagLowFor`).
- Mixed drinks with repeated flavors: the source does not require distinct
  flavors, so a flavor selected twice contributes two shares
  (`VendorRules.MixedFruitAmount` counts multiplicity).
- Snapshots and copies (`getAllInventory`, `getAllSales`, the report's sales
  list) are values in Dafny, so later changes to a store cannot reach them.
- Recipes.RequiredScalesWithSize: states the scaling relative to the small
  size rather than between any two sizes; the ratio between any two follows
  by dividing the two statements.
