/** The vendor's fixed reference data: the six ingredients with their units,
    the three drink flavors with their fruit and fruit density, and the three
    drink sizes with their volumes. */
module Catalog {

  /** The six ingredients the vendor stocks, in declaration order. */
  datatype Ingredient = Strawberries | Bananas | Mango | Ice | CondensedMilk | Sugar

  /** Every ingredient in declaration order: the order in which an
      ingredient-keyed enum map is traversed. */
  const AllIngredients: seq<Ingredient> := [Strawberries, Bananas, Ingredient.Mango, Ice, CondensedMilk, Sugar]

  /** Position of an ingredient in declaration order. */
  function Ordinal(i: Ingredient): (n: nat)
    ensures n < |AllIngredients| && AllIngredients[n] == i
  {
    match i
    case Strawberries => 0
    case Bananas => 1
    case Mango => 2
    case Ice => 3
    case CondensedMilk => 4
    case Sugar => 5
  }

  /** There are exactly six ingredients and the list names each exactly once. */
  lemma AllIngredientsExactlyOnce()
    ensures |AllIngredients| == 6
    ensures forall i: Ingredient :: i in AllIngredients
    ensures forall j, k :: 0 <= j < k < |AllIngredients| ==> AllIngredients[j] != AllIngredients[k]
  {
    forall i: Ingredient ensures i in AllIngredients {
      assert AllIngredients[Ordinal(i)] == i;
    }
  }

  /** Declaration order and position agree: the ingredient at position `k`
      has ordinal `k`. */
  lemma OrdinalAt(k: nat)
    requires k < |AllIngredients|
    ensures Ordinal(AllIngredients[k]) == k
  {
    AllIngredientsExactlyOnce();
  }

  /** Unit of measure: fruits and sugar in grams, the two liquids in millilitres. */
  function Unit(i: Ingredient): (u: string)
    ensures u == "g" || u == "ml"
    ensures u == "ml" <==> i == Ice || i == CondensedMilk
  {
    match i
    case Strawberries => "g"
    case Bananas => "g"
    case Mango => "g"
    case Ice => "ml"
    case CondensedMilk => "ml"
    case Sugar => "g"
  }

  /** The three drink flavors. */
  datatype Flavor = Strawberry | Banana | Mango

  /** Every flavor in declaration order. */
  const AllFlavors: seq<Flavor> := [Flavor.Strawberry, Flavor.Banana, Flavor.Mango]

  /** The fruit a flavor is blended from; never one of the three base ingredients. */
  function FruitOf(f: Flavor): (i: Ingredient)
    ensures i != Ice && i != CondensedMilk && i != Sugar
    ensures Unit(i) == "g"
  {
    match f
    case Strawberry => Strawberries
    case Banana => Bananas
    case Mango => Ingredient.Mango
  }

  /** Distinct flavors use distinct fruits. */
  lemma FruitOfInjective(f: Flavor, g: Flavor)
    ensures FruitOf(f) == FruitOf(g) <==> f == g
  {
  }

  /** Grams of fruit per 100 ml of blended fruit base. */
  function GramsPer100ml(f: Flavor): (g: nat)
    ensures 100 <= g <= 140
  {
    match f
    case Strawberry => 100
    case Banana => 120
    case Mango => 140
  }

  /** The three drink sizes. */
  datatype Size = Small | Medium | Large

  /** Total drink volume in millilitres. */
  function VolumeMl(s: Size): (v: nat)
    ensures v > 0 && v % 100 == 0
  {
    match s
    case Small => 200
    case Medium => 300
    case Large => 500
  }

  /** Position of a size in declaration order. */
  function SizeOrdinal(s: Size): (n: nat)
    ensures n < 3
  {
    match s
    case Small => 0
    case Medium => 1
    case Large => 2
  }

  /** Volumes strictly increase in declaration order. */
  lemma VolumesIncrease(s: Size, t: Size)
    ensures SizeOrdinal(s) < SizeOrdinal(t) <==> VolumeMl(s) < VolumeMl(t)
  {
  }
}
