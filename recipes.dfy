/** A recipe is a flavor and a size; it determines the ingredient amounts a
    single drink needs, by unit conversion from fixed per-100 ml rates. */
module Recipes {
  import opened Catalog

  /** Design rates per 100 ml of finished drink. */
  const BlendedFruitMlPer100Ml: nat := 50
  const IceMlPer100Ml: nat := 30
  const CondensedMilkMlPer100Ml: nat := 20
  const SugarGPer100Ml: nat := 8

  /** A value: two recipes are equal exactly when flavor and size are. */
  datatype Recipe = Recipe(flavor: Flavor, size: Size)

  /** Ingredient amounts, each in the ingredient's own unit. */
  type Requirements = map<Ingredient, real>

  /** Amounts one drink of this recipe consumes: its fruit, ice, condensed
      milk and sugar, and nothing else. */
  function RequiredIngredients(r: Recipe): (req: Requirements)
    ensures forall i :: i in req <==> i == FruitOf(r.flavor) || i == Ice || i == CondensedMilk || i == Sugar
    ensures forall i :: i in req ==> req[i] > 0.0
  {
    var volumeMultiplier := VolumeMl(r.size) as real / 100.0;
    var blendedFruitMl := BlendedFruitMlPer100Ml as real * volumeMultiplier;
    var fruitGrams := (blendedFruitMl / 100.0) * GramsPer100ml(r.flavor) as real;
    map[FruitOf(r.flavor) := fruitGrams,
        Ice := IceMlPer100Ml as real * volumeMultiplier,
        CondensedMilk := CondensedMilkMlPer100Ml as real * volumeMultiplier,
        Sugar := SugarGPer100Ml as real * volumeMultiplier]
  }

  /** Amount of `i` needed per millilitre of finished drink; zero for an
      ingredient the flavor does not use. */
  function RatePerMl(f: Flavor, i: Ingredient): real
  {
    if i == FruitOf(f) then (BlendedFruitMlPer100Ml * GramsPer100ml(f)) as real / 10000.0
    else if i == Ice then IceMlPer100Ml as real / 100.0
    else if i == CondensedMilk then CondensedMilkMlPer100Ml as real / 100.0
    else if i == Sugar then SugarGPer100Ml as real / 100.0
    else 0.0
  }

  /** Every required amount is the drink's volume times a per-millilitre
      rate that depends on the flavor only. */
  lemma RequiredIsLinearInVolume(r: Recipe, i: Ingredient)
    requires i in RequiredIngredients(r)
    ensures RequiredIngredients(r)[i] == RatePerMl(r.flavor, i) * VolumeMl(r.size) as real
  {
    var v := VolumeMl(r.size) as real;
    var g := GramsPer100ml(r.flavor) as real;
    if i == FruitOf(r.flavor) {
      assert (50.0 * (v / 100.0) / 100.0) * g == (50.0 * g / 10000.0) * v;
    }
  }

  /** Changing the size scales every amount by the ratio of the volumes:
      a medium drink needs 1.5 times, a large one 2.5 times what a small one
      needs. */
  lemma RequiredScalesWithSize(f: Flavor, s: Size, i: Ingredient)
    requires i in RequiredIngredients(Recipe(f, Small))
    ensures i in RequiredIngredients(Recipe(f, s))
    ensures RequiredIngredients(Recipe(f, s))[i]
         == RequiredIngredients(Recipe(f, Small))[i] * (VolumeMl(s) as real / VolumeMl(Small) as real)
  {
    match s {
      case Small =>
      case Medium =>
      case Large =>
    }
  }

  /** Ice, condensed milk and sugar do not depend on the flavor. */
  lemma BaseIngredientsIgnoreFlavor(f: Flavor, g: Flavor, s: Size, i: Ingredient)
    requires i == Ice || i == CondensedMilk || i == Sugar
    ensures RequiredIngredients(Recipe(f, s))[i] == RequiredIngredients(Recipe(g, s))[i]
  {
  }

  /** A small drink needs exactly 60 ml of ice, whatever the flavor. */
  lemma SmallDrinkIce(f: Flavor)
    ensures RequiredIngredients(Recipe(f, Small))[Ice] == 60.0
  {
  }

  /** A medium strawberry drink: 150 g strawberries, 90 ml ice, 60 ml
      condensed milk and 24 g sugar. */
  lemma MediumStrawberryRequirements()
    ensures RequiredIngredients(Recipe(Flavor.Strawberry, Medium))
         == map[Strawberries := 150.0, Ice := 90.0, CondensedMilk := 60.0, Sugar := 24.0]
  {
  }

  /** Recipe equality is equality of flavor and size. */
  lemma RecipeEquality(a: Recipe, b: Recipe)
    ensures a == b <==> a.flavor == b.flavor && a.size == b.size
  {
  }
}
