/** Pricing: ingredient cost from a fixed table, a 60% margin, and rounding
    up to the next multiple of five cents; mixed drinks average the
    single-flavor prices and add a 10% premium. */
module Pricing {
  import opened Catalog
  import opened Recipes
  import opened Errors
  import opened RealArith

  /** The margin added on top of ingredient cost. */
  const ProfitMargin: real := 0.60

  /** The multiplier applied to the mean single-flavor price of a mix. */
  const MixedPremium: real := 1.10

  /** Cost per unit of each ingredient, in dollars. Every ingredient has an
      entry, so the lookup never falls back to its default of zero. */
  function IngredientCost(i: Ingredient): (c: real)
    ensures 0.0 < c <= 0.010
  {
    match i
    case Strawberries => 0.008
    case Bananas => 0.003
    case Mango => 0.010
    case Ice => 0.001
    case CondensedMilk => 0.005
    case Sugar => 0.001
  }

  /** Cost of the required amount of one ingredient; zero if not required. */
  function LineCost(req: Requirements, i: Ingredient): real
  {
    if i in req then IngredientCost(i) * req[i] else 0.0
  }

  /** Cost of the required amounts of the ingredients listed in `order`. */
  function CostOver(req: Requirements, order: seq<Ingredient>): (c: real)
    ensures (forall i :: i in req ==> req[i] >= 0.0) ==> c >= 0.0
    ensures (forall i :: i in req ==> req[i] >= 0.0) && (exists i :: i in order && i in req && req[i] > 0.0) ==> c > 0.0
  {
    if order == [] then 0.0
    else CostOver(req, order[..|order| - 1]) + LineCost(req, order[|order| - 1])
  }

  /** Total ingredient cost of a set of required amounts. */
  function Cost(req: Requirements): real
  {
    CostOver(req, AllIngredients)
  }

  /** Ingredient cost of one drink. */
  function RecipeCost(recipe: Recipe): (c: real)
    ensures c >= 0.0
  {
    Cost(RequiredIngredients(recipe))
  }

  /** Every drink has a positive ingredient cost. */
  lemma RecipeCostPositive(recipe: Recipe)
    ensures RecipeCost(recipe) > 0.0
  {
    assert AllIngredients[Ordinal(Ice)] == Ice;
  }

  /** The total cost is the sum of the six per-ingredient line costs, so
      the order of summation plays no part. */
  lemma CostIsSumOfLines(req: Requirements)
    ensures Cost(req) == LineCost(req, Strawberries) + LineCost(req, Bananas)
                       + LineCost(req, Ingredient.Mango) + LineCost(req, Ice)
                       + LineCost(req, CondensedMilk) + LineCost(req, Sugar)
  {
    var o := AllIngredients;
    assert o[..1][..0] == [];
    assert CostOver(req, o[..1]) == LineCost(req, Strawberries);
    assert o[..2][..1] == o[..1];
    assert CostOver(req, o[..2]) == CostOver(req, o[..1]) + LineCost(req, Bananas);
    assert o[..3][..2] == o[..2];
    assert CostOver(req, o[..3]) == CostOver(req, o[..2]) + LineCost(req, Ingredient.Mango);
    assert o[..4][..3] == o[..3];
    assert CostOver(req, o[..4]) == CostOver(req, o[..3]) + LineCost(req, Ice);
    assert o[..5][..4] == o[..4];
    assert CostOver(req, o[..5]) == CostOver(req, o[..4]) + LineCost(req, CondensedMilk);
    assert o[..6][..5] == o[..5];
    assert o[..6] == o;
  }

  /** The cost of a drink is the sum, over its four ingredients, of unit cost
      times amount. */
  lemma RecipeCostIsSumOfFour(recipe: Recipe)
    ensures var req := RequiredIngredients(recipe);
            var fruit := FruitOf(recipe.flavor);
            RecipeCost(recipe) == IngredientCost(fruit) * req[fruit]
                                + IngredientCost(Ice) * req[Ice]
                                + IngredientCost(CondensedMilk) * req[CondensedMilk]
                                + IngredientCost(Sugar) * req[Sugar]
  {
    CostIsSumOfLines(RequiredIngredients(recipe));
  }

  /** Smallest integer not below `x`. */
  function Ceil(x: real): (n: int)
    ensures x <= n as real < x + 1.0
  {
    if x.Floor as real == x then x.Floor else x.Floor + 1
  }

  /** Whether an amount is a whole number of five-cent coins. */
  predicate IsNickelMultiple(p: real)
  {
    (p * 20.0).Floor as real == p * 20.0
  }

  /** Rounds up to the next multiple of 0.05. */
  function RoundUpToNickel(x: real): (p: real)
    ensures IsNickelMultiple(p)
    ensures x <= p < x + 0.05
  {
    var n := Ceil(x * 20.0);
    NickelSteps(x, n);
    n as real / 20.0
  }

  /** The arithmetic behind rounding to the nickel. */
  lemma NickelSteps(x: real, n: int)
    requires x * 20.0 <= n as real < x * 20.0 + 1.0
    ensures IsNickelMultiple(n as real / 20.0)
    ensures x <= n as real / 20.0 < x + 0.05
  {
    var p := n as real / 20.0;
    assert p * 20.0 == n as real;
    assert (n as real).Floor == n;
  }

  /** Rounding up to a nickel is the only multiple of 0.05 in [x, x + 0.05). */
  lemma RoundUpToNickelUnique(x: real, p: real)
    requires IsNickelMultiple(p) && x <= p < x + 0.05
    ensures p == RoundUpToNickel(x)
  {
    var q := RoundUpToNickel(x);
    var m, k := (p * 20.0).Floor, (q * 20.0).Floor;
    assert m as real == p * 20.0 && k as real == q * 20.0;
    assert x * 20.0 <= m as real < x * 20.0 + 1.0;
    assert x * 20.0 <= k as real < x * 20.0 + 1.0;
    assert m == k;
  }

  /** Price of a single-flavor drink: cost with the margin, rounded up to
      the nickel. It covers cost plus margin and exceeds it by less than
      five cents. */
  function CalculatePrice(recipe: Recipe): (price: real)
    ensures IsNickelMultiple(price)
    ensures RecipeCost(recipe) * (1.0 + ProfitMargin) <= price < RecipeCost(recipe) * (1.0 + ProfitMargin) + 0.05
    ensures price > 0.0
  {
    RecipeCostPositive(recipe);
    RoundUpToNickel(RecipeCost(recipe) * (1.0 + ProfitMargin))
  }

  /** A medium strawberry drink costs 1.614 and sells for 2.60. */
  lemma MediumStrawberryPrice()
    ensures RecipeCost(Recipe(Flavor.Strawberry, Medium)) == 1.614
    ensures CalculatePrice(Recipe(Flavor.Strawberry, Medium)) == 2.60
  {
    var r := Recipe(Flavor.Strawberry, Medium);
    RecipeCostIsSumOfFour(r);
    MediumStrawberryRequirements();
    assert RecipeCost(r) * (1.0 + ProfitMargin) * 20.0 == 51.648;
    assert Ceil(51.648) == 52;
  }

  /** Sum of the single-flavor prices of the listed flavors at one size. */
  function SumPrices(flavors: seq<Flavor>, size: Size): (total: real)
    ensures total >= 0.0
    ensures flavors != [] ==> total > 0.0
  {
    if flavors == [] then 0.0
    else SumPrices(flavors[..|flavors| - 1], size) + CalculatePrice(Recipe(flavors[|flavors| - 1], size))
  }

  /** Arithmetic mean of the single-flavor prices. */
  function MeanPrice(flavors: seq<Flavor>, size: Size): real
    requires flavors != []
  {
    SumPrices(flavors, size) / |flavors| as real
  }

  /** Price of a mixed drink: the mean full-size single-flavor price plus the
      premium, rounded up to the nickel. An empty selection is refused. */
  function CalculateMixedDrinkPrice(flavors: seq<Flavor>, size: Size): (r: Result<real>)
    ensures r.Err? <==> flavors == []
    ensures r.Err? ==> r.error == InvalidArgument
    ensures r.Ok? ==> IsNickelMultiple(r.value)
    ensures r.Ok? ==> MeanPrice(flavors, size) * MixedPremium <= r.value < MeanPrice(flavors, size) * MixedPremium + 0.05
    ensures r.Ok? ==> r.value > 0.0
  {
    if flavors == [] then Err(InvalidArgument)
    else
      var averageFlavorCost := MeanPrice(flavors, size);
      Ok(RoundUpToNickel(averageFlavorCost * MixedPremium))
  }

  /** A one-flavor mix costs its single-flavor price plus the premium,
      rounded up to the nickel. */
  lemma MixedPriceOfOneFlavor(f: Flavor, size: Size)
    ensures CalculateMixedDrinkPrice([f], size) == Ok(RoundUpToNickel(CalculatePrice(Recipe(f, size)) * MixedPremium))
  {
    assert [f][..0] == [];
    assert SumPrices([f], size) == CalculatePrice(Recipe(f, size));
  }

  /** Profit as a percentage of price; zero when there is no cost. Because
      the price is at least 1.6 times a positive cost, it is then never below
      37.5% and always below 100%. */
  function CalculateProfitMargin(recipe: Recipe): (m: real)
    ensures RecipeCost(recipe) > 0.0 ==> 37.5 <= m < 100.0
    ensures RecipeCost(recipe) <= 0.0 ==> m == 0.0
  {
    var price := CalculatePrice(recipe);
    var cost := RecipeCost(recipe);
    if cost > 0.0 then
      MarginBounds(cost, price);
      ((price - cost) / price) * 100.0
    else 0.0
  }

  /** Every drink's margin lies in [37.5, 100). */
  lemma ProfitMarginRange(recipe: Recipe)
    ensures 37.5 <= CalculateProfitMargin(recipe) < 100.0
  {
    RecipeCostPositive(recipe);
  }

  /** Any price at least 1.6 times a positive cost leaves a margin in
      [37.5, 100). */
  lemma MarginBounds(cost: real, price: real)
    requires cost > 0.0 && price >= cost * 1.6
    ensures 37.5 <= ((price - cost) / price) * 100.0 < 100.0
  {
    var q := (price - cost) / price;
    assert q * price == price - cost;
    assert (q - 0.375) * price == (price - cost) - 0.375 * price >= 0.0;
    FactorSign(q - 0.375, price);
    assert (1.0 - q) * price == cost;
    FactorSign(1.0 - q, price);
  }
}
