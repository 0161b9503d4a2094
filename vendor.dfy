/** The vendor service: sells single-flavor and mixed drinks against the
    inventory store, records each sale in the ledger, and answers stock and
    sales queries. */
module Vendor {
  import opened Catalog
  import opened Recipes
  import opened Errors
  import opened Sales
  import opened Inventory
  import opened Pricing
  import opened Ledger
  import opened Reports
  import opened VendorRules

  class StandardVendorService {
    const inventoryRepository: InMemoryInventoryRepository
    const salesRepository: InMemorySalesRepository

    /** Both stores keep their own invariants. */
    ghost predicate Valid()
      reads this, inventoryRepository, salesRepository
    {
      inventoryRepository.Valid() && salesRepository.Valid()
    }

    /** Wires the service to its two stores; pricing needs no state. */
    constructor (inventory: InMemoryInventoryRepository, sales: InMemorySalesRepository)
      requires inventory.Valid() && sales.Valid()
      ensures Valid()
      ensures inventoryRepository == inventory && salesRepository == sales
    {
      inventoryRepository := inventory;
      salesRepository := sales;
    }

    /** A snapshot of the stock. */
    function GetCurrentInventory(): (snapshot: Stock)
      reads inventoryRepository
      ensures forall i :: Quantity(snapshot, i) == inventoryRepository.GetQuantity(i)
      ensures Valid() ==> NonNegative(snapshot)
    {
      inventoryRepository.GetAllInventory()
    }

    /** Whether every ingredient of the recipe is on hand in the required
        amount. */
    function CanMakeDrink(recipe: Recipe): (b: bool)
      reads inventoryRepository
      ensures b <==> Covers(inventoryRepository.inventory, RequiredIngredients(recipe))
    {
      var required := RequiredIngredients(recipe);
      forall i :: i in required ==> inventoryRepository.IsAvailable(i, required[i])
    }

    /** Checks the required amounts in ingredient order and reports the
        first one the stock does not cover. */
    method ValidateInventoryAvailability(required: Requirements) returns (outcome: Outcome)
      ensures outcome.Pass? <==> Covers(inventoryRepository.inventory, required)
      ensures outcome.Fail? ==> IsFirstShortfall(inventoryRepository.inventory, required, outcome.error)
    {
      for k := 0 to |AllIngredients|
        invariant forall j :: j in required && Ordinal(j) < k ==> Quantity(inventoryRepository.inventory, j) >= required[j]
      {
        var ingredient := AllIngredients[k];
        OrdinalAt(k);
        if ingredient in required {
          var requiredAmount := required[ingredient];
          var available := inventoryRepository.GetQuantity(ingredient);
          if !inventoryRepository.IsAvailable(ingredient, requiredAmount) {
            return Fail(InsufficientInventory(ingredient, requiredAmount, available));
          }
        }
      }
      return Pass;
    }

    /** Takes every required amount out of the stock, in ingredient order. */
    method ReduceAll(required: Requirements)
      requires Valid()
      requires Covers(inventoryRepository.inventory, required)
      requires forall i :: i in required ==> required[i] >= 0.0
      modifies inventoryRepository
      ensures Valid()
      ensures inventoryRepository.inventory == Consumed(old(inventoryRepository.inventory), required)
    {
      ghost var start := inventoryRepository.inventory;
      for k := 0 to |AllIngredients|
        invariant inventoryRepository.Valid()
        invariant inventoryRepository.inventory == Drained(start, required, k)
      {
        var ingredient := AllIngredients[k];
        if ingredient in required {
          var amount := required[ingredient];
          DrainedBeforeStep(start, required, k);
          var outcome := inventoryRepository.ReduceQuantity(ingredient, amount);
          assert outcome.Pass?;
        }
      }
      DrainedIsConsumed(start, required);
    }

    /** Sells one drink: refuses it, changing nothing, when an ingredient is
        short; otherwise takes the ingredients out, prices the drink and
        records the sale. */
    method SellDrink(recipe: Recipe, now: DateTime) returns (r: Result<Sale>)
      requires Valid()
      modifies inventoryRepository, salesRepository
      ensures Valid()
      ensures r.Ok? <==> old(CanMakeDrink(recipe))
      ensures r.Err? ==> IsFirstShortfall(old(inventoryRepository.inventory), RequiredIngredients(recipe), r.error)
      ensures r.Err? ==> (inventoryRepository.inventory == old(inventoryRepository.inventory)
                          && salesRepository.sales == old(salesRepository.sales))
      ensures r.Ok? ==> r.value == Sale(recipe, now, CalculatePrice(recipe))
      ensures r.Ok? ==> inventoryRepository.inventory == Consumed(old(inventoryRepository.inventory), RequiredIngredients(recipe))
      ensures r.Ok? ==> salesRepository.sales == old(salesRepository.sales) + [r.value]
    {
      var required := RequiredIngredients(recipe);
      var validation := ValidateInventoryAvailability(required);
      if validation.Fail? {
        return Err(validation.error);
      }
      ReduceAll(required);
      var price := CalculatePrice(recipe);
      var sale := NewSale(recipe, price, now);
      salesRepository.RecordSale(sale.value);
      return Ok(sale.value);
    }

    /** Adds up the ingredients of a mix: each selected flavor contributes
        its full-size amounts divided by the number of selections. */
    static method CombineRequirements(flavors: seq<Flavor>, size: Size) returns (totalRequired: Requirements)
      requires flavors != []
      ensures totalRequired == MixedRequirements(flavors, size)
    {
      var n := |flavors|;
      totalRequired := map[];
      CombinedEnds(flavors, size);
      for k := 0 to n
        invariant totalRequired == Combined(flavors[..k], size, n)
      {
        var flavor := flavors[k];
        var required := RequiredIngredients(Recipe(flavor, size));
        totalRequired := MergeRequirements(totalRequired, required, n);
        CombinedStep(flavors, k, size, n);
      }
    }

    /** Merges `required[i] / n` into `acc` for every required ingredient,
        in ingredient order, summing with what `acc` already holds. */
    static method MergeRequirements(acc: Requirements, required: Requirements, n: nat) returns (merged: Requirements)
      requires n > 0
      ensures merged == MergeShares(acc, required, n, |AllIngredients|)
    {
      merged := acc;
      for j := 0 to |AllIngredients|
        invariant merged == MergeShares(acc, required, n, j)
      {
        var ingredient := AllIngredients[j];
        if ingredient in required {
          var share := required[ingredient] / n as real;
          if ingredient in merged {
            merged := merged[ingredient := merged[ingredient] + share];
          } else {
            merged := merged[ingredient := share];
          }
        }
      }
    }

    /** Sells a drink blended from several flavors: an empty selection is
        refused; a short ingredient refuses the sale and changes nothing;
        otherwise the combined ingredients are taken out and the sale is
        recorded under the first flavor's recipe at the mixed price. */
    method SellMixedDrink(flavors: seq<Flavor>, size: Size, now: DateTime) returns (r: Result<Sale>)
      requires Valid()
      modifies inventoryRepository, salesRepository
      ensures Valid()
      ensures flavors == [] ==> r == Err(InvalidArgument)
      ensures flavors != [] ==> (r.Ok? <==> old(Covers(inventoryRepository.inventory, MixedRequirements(flavors, size))))
      ensures flavors != [] && r.Err? ==> IsFirstShortfall(old(inventoryRepository.inventory), MixedRequirements(flavors, size), r.error)
      ensures r.Err? ==> (inventoryRepository.inventory == old(inventoryRepository.inventory)
                          && salesRepository.sales == old(salesRepository.sales))
      ensures r.Ok? ==> (flavors != []
                         && r.value == Sale(Recipe(flavors[0], size), now, CalculateMixedDrinkPrice(flavors, size).value))
      ensures r.Ok? ==> inventoryRepository.inventory == Consumed(old(inventoryRepository.inventory), MixedRequirements(flavors, size))
      ensures r.Ok? ==> salesRepository.sales == old(salesRepository.sales) + [r.value]
    {
      if flavors == [] {
        return Err(InvalidArgument);
      }
      var totalRequired := CombineRequirements(flavors, size);
      var validation := ValidateInventoryAvailability(totalRequired);
      if validation.Fail? {
        return Err(validation.error);
      }
      MixedAmountsPositive(flavors, size);
      ReduceAll(totalRequired);
      var price := CalculateMixedDrinkPrice(flavors, size);
      var representativeRecipe := Recipe(flavors[0], size);
      var sale := NewSale(representativeRecipe, price.value, now);
      salesRepository.RecordSale(sale.value);
      return Ok(sale.value);
    }

    /** Ingredients that cannot cover `drinksThreshold` medium drinks of some
        flavor, each listed once, in the order the scan over flavors and
        their ingredients first meets them. */
    method GetLowStockIngredients(drinksThreshold: int) returns (lowStock: seq<Ingredient>)
      ensures lowStock == LowStock(inventoryRepository.inventory, drinksThreshold)
      ensures forall i :: i in lowStock <==> exists f :: IsLow(inventoryRepository.inventory, drinksThreshold, f, i)
      ensures forall j, k :: 0 <= j < k < |lowStock| ==> lowStock[j] != lowStock[k]
    {
      ghost var low := Lowness(inventoryRepository.inventory, drinksThreshold);
      lowStock := [];
      ScanEnds(inventoryRepository.inventory, drinksThreshold);
      for fi := 0 to |AllFlavors|
        invariant lowStock == Dedup(Flagged(AllFlavors[..fi], AllIngredients, low))
      {
        var flavor := AllFlavors[fi];
        var recipe := Recipe(flavor, ReferenceSize);
        var required := RequiredIngredients(recipe);
        LownessFor(inventoryRepository.inventory, drinksThreshold, flavor, required);
        lowStock := FlagLowFor(lowStock, flavor, required, drinksThreshold, low);
        ScanStep(fi, low);
      }
      forall i ensures i in lowStock <==> exists f :: IsLow(inventoryRepository.inventory, drinksThreshold, f, i) {
        LowStockMembership(inventoryRepository.inventory, drinksThreshold, i);
      }
    }

    /** One flavor's pass of the low-stock scan: appends, in ingredient
        order, each required ingredient whose stock cannot cover
        `drinksThreshold` drinks and that is not listed yet. */
    method FlagLowFor(lowStock: seq<Ingredient>, flavor: Flavor, required: Requirements, drinksThreshold: int,
                      ghost low: (Flavor, Ingredient) -> bool)
      returns (updated: seq<Ingredient>)
      requires forall i :: low(flavor, i) <==> i in required && Quantity(inventoryRepository.inventory, i) < required[i] * drinksThreshold as real
      ensures updated == ScanFlavor(lowStock, flavor, AllIngredients, low)
    {
      updated := lowStock;
      for j := 0 to |AllIngredients|
        invariant updated == ScanFlavor(lowStock, flavor, AllIngredients[..j], low)
      {
        var ingredient := AllIngredients[j];
        assert AllIngredients[..j + 1][..j] == AllIngredients[..j];
        if ingredient in required {
          var requiredForThreshold := required[ingredient] * drinksThreshold as real;
          if !inventoryRepository.IsAvailable(ingredient, requiredForThreshold) && ingredient !in updated {
            updated := updated + [ingredient];
          }
        }
      }
      assert AllIngredients[..|AllIngredients|] == AllIngredients;
    }

    /** The report for `date`, over the ledger's sales of that date. */
    function GetDailySalesReport(date: Date): (report: DailySalesReport)
      reads salesRepository
      ensures report.date == date
      ensures forall s :: s in report.sales <==> s in salesRepository.sales && s.saleTime.date == date
      ensures report.totalSales == salesRepository.GetSalesCountByDate(date)
      ensures report.totalRevenue == salesRepository.GetTotalRevenueByDate(date)
    {
      NewDailySalesReport(date, salesRepository.GetSalesByDate(date))
    }

    /** The whole ledger, in insertion order. */
    function GetAllSales(): (sales: seq<Sale>)
      reads salesRepository
      ensures |sales| == |salesRepository.sales|
      ensures forall k :: 0 <= k < |sales| ==> sales[k] == salesRepository.sales[k]
    {
      salesRepository.GetAllSales()
    }
  }
}
