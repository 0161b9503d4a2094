/** The rules the vendor service applies, stated as functions of the stock
    and the order: which shortfall a refused sale reports, how a mixed drink
    apportions ingredients among its flavors, and which ingredients count as
    low on stock. */
module VendorRules {
  import opened Catalog
  import opened Recipes
  import opened Errors
  import opened Inventory
  import opened RealArith

  // ---------------------------------------------------------------------
  // Shortfall reporting

  /** `e` reports the first ingredient, in declaration order, whose required
      amount the stock does not cover, with that amount and the quantity on
      hand. */
  predicate IsFirstShortfall(stock: Stock, req: Requirements, e: VendorError)
  {
    && e.InsufficientInventory?
    && e.ingredient in req
    && e.required == req[e.ingredient]
    && e.available == Quantity(stock, e.ingredient)
    && e.available < e.required
    && forall j :: j in req && Ordinal(j) < Ordinal(e.ingredient) ==> Quantity(stock, j) >= req[j]
  }

  /** The shortfall a refused sale reports is determined by the stock and
      the requirements. */
  lemma FirstShortfallUnique(stock: Stock, req: Requirements, e1: VendorError, e2: VendorError)
    requires IsFirstShortfall(stock, req, e1) && IsFirstShortfall(stock, req, e2)
    ensures e1 == e2
  {
    assert !(Ordinal(e1.ingredient) < Ordinal(e2.ingredient));
    assert !(Ordinal(e2.ingredient) < Ordinal(e1.ingredient));
    assert e1.ingredient == AllIngredients[Ordinal(e1.ingredient)];
    assert e2.ingredient == AllIngredients[Ordinal(e2.ingredient)];
  }

  /** A shortfall report is evidence that the stock does not cover the
      requirements. */
  lemma ShortfallMeansNotCovered(stock: Stock, req: Requirements, e: VendorError)
    requires IsFirstShortfall(stock, req, e)
    ensures !Covers(stock, req)
  {
    assert e.ingredient in req;
  }

  // ---------------------------------------------------------------------
  // Mixed drinks

  /** What one flavor contributes to a mix of `n` flavors: its full-size
      single-drink amount of `i`, divided by `n`. */
  function Share(f: Flavor, size: Size, i: Ingredient, n: nat): (s: real)
    requires n > 0
    ensures s >= 0.0
    ensures s > 0.0 <==> i in RequiredIngredients(Recipe(f, size))
  {
    var req := RequiredIngredients(Recipe(f, size));
    if i in req then req[i] / n as real else 0.0
  }

  /** Sum of `share` over the flavors, the last one added last. */
  function SumOver(flavors: seq<Flavor>, share: Flavor -> real): real
  {
    if flavors == [] then 0.0
    else SumOver(flavors[..|flavors| - 1], share) + share(flavors[|flavors| - 1])
  }

  /** Sum of the flavors' shares of `i` in a mix of `n`. */
  function ShareSum(flavors: seq<Flavor>, size: Size, i: Ingredient, n: nat): real
    requires n > 0
  {
    SumOver(flavors, f => Share(f, size, i, n))
  }

  /** One more flavor adds its share. */
  lemma ShareSumExtend(flavors: seq<Flavor>, f: Flavor, size: Size, i: Ingredient, n: nat)
    requires n > 0
    ensures ShareSum(flavors + [f], size, i, n) == ShareSum(flavors, size, i, n) + Share(f, size, i, n)
  {
    assert (flavors + [f])[..|flavors|] == flavors;
  }

  /** Every ingredient some selected flavor needs. */
  function MixedKeys(flavors: seq<Flavor>, size: Size): set<Ingredient>
  {
    set f, i | f in flavors && i in RequiredIngredients(Recipe(f, size)) :: i
  }

  /** Every ingredient the listed flavors need, with their summed shares
      in a mix of `n`. */
  function Combined(flavors: seq<Flavor>, size: Size, n: nat): Requirements
    requires n > 0
  {
    map i | i in MixedKeys(flavors, size) :: ShareSum(flavors, size, i, n)
  }

  /** Total requirements of a mixed drink: each ingredient any selected
      flavor needs, in the amount of the flavors' summed shares. */
  function MixedRequirements(flavors: seq<Flavor>, size: Size): Requirements
    requires flavors != []
  {
    Combined(flavors, size, |flavors|)
  }

  /** One more flavor adds the ingredients it needs. */
  lemma MixedKeysExtend(flavors: seq<Flavor>, f: Flavor, size: Size, i: Ingredient)
    ensures i in MixedKeys(flavors + [f], size) <==> i in MixedKeys(flavors, size) || i in RequiredIngredients(Recipe(f, size))
  {
    if i in MixedKeys(flavors + [f], size) {
      var g :| g in flavors + [f] && i in RequiredIngredients(Recipe(g, size));
      if g != f {
        assert g in flavors;
      }
    }
    if i in MixedKeys(flavors, size) {
      var g :| g in flavors && i in RequiredIngredients(Recipe(g, size));
      assert g in flavors + [f];
    }
    if i in RequiredIngredients(Recipe(f, size)) {
      assert f in flavors + [f];
    }
  }

  /** Flavors that do not need an ingredient contribute nothing to it. */
  lemma ShareSumOutsideKeys(flavors: seq<Flavor>, size: Size, i: Ingredient, n: nat)
    requires n > 0
    requires i !in MixedKeys(flavors, size)
    ensures ShareSum(flavors, size, i, n) == 0.0
  {
    var share := g => Share(g, size, i, n);
    forall g | g in flavors ensures share(g) == 0.0 {
      assert i !in RequiredIngredients(Recipe(g, size));
    }
    SumOverZero(flavors, share);
  }

  /** A sum of zero shares is zero. */
  lemma {:induction false} SumOverZero(flavors: seq<Flavor>, share: Flavor -> real)
    requires forall f :: f in flavors ==> share(f) == 0.0
    ensures SumOver(flavors, share) == 0.0
  {
    if flavors != [] {
      var init, last := flavors[..|flavors| - 1], flavors[|flavors| - 1];
      assert flavors == init + [last];
      assert forall f :: f in init ==> f in flavors;
      SumOverZero(init, share);
    }
  }

  /** A mix needs ice, condensed milk, sugar and the fruit of each selected
      flavor, and nothing else. */
  lemma MixedKeysExplicit(flavors: seq<Flavor>, size: Size)
    requires flavors != []
    ensures MixedRequirements(flavors, size).Keys
         == {Ice, CondensedMilk, Sugar} + set f | f in flavors :: FruitOf(f)
  {
    MixedKeysAre(flavors, size);
    assert MixedRequirements(flavors, size).Keys == MixedKeys(flavors, size);
  }

  /** The ingredients some selected flavor needs: the three base ones and
      each selected flavor's fruit. */
  lemma MixedKeysAre(flavors: seq<Flavor>, size: Size)
    requires flavors != []
    ensures MixedKeys(flavors, size) == {Ice, CondensedMilk, Sugar} + set f | f in flavors :: FruitOf(f)
  {
    var keys := MixedKeys(flavors, size);
    var fruits := set f | f in flavors :: FruitOf(f);
    assert {Ice, CondensedMilk, Sugar} <= keys by {
      BaseIngredientsAreMixed(flavors, size);
    }
    assert fruits <= keys by {
      forall f | f in flavors ensures FruitOf(f) in keys {
        assert FruitOf(f) in RequiredIngredients(Recipe(f, size));
      }
    }
    assert keys <= {Ice, CondensedMilk, Sugar} + fruits by {
      forall k | k in keys ensures k in {Ice, CondensedMilk, Sugar} + fruits {
        var f :| f in flavors && k in RequiredIngredients(Recipe(f, size));
        assert k == FruitOf(f) || k in {Ice, CondensedMilk, Sugar};
      }
    }
  }

  /** Ice, condensed milk and sugar are in every non-empty mix. */
  lemma BaseIngredientsAreMixed(flavors: seq<Flavor>, size: Size)
    requires flavors != []
    ensures Ice in MixedKeys(flavors, size) && CondensedMilk in MixedKeys(flavors, size) && Sugar in MixedKeys(flavors, size)
  {
    var f0 := flavors[0];
    assert Ice in RequiredIngredients(Recipe(f0, size));
    assert CondensedMilk in RequiredIngredients(Recipe(f0, size));
    assert Sugar in RequiredIngredients(Recipe(f0, size));
  }


  /** A sum of non-negative shares is non-negative, and positive as soon as
      one of the summed shares is. */
  lemma {:induction false} SumOverSign(flavors: seq<Flavor>, share: Flavor -> real)
    requires forall f :: share(f) >= 0.0
    ensures SumOver(flavors, share) >= 0.0
    ensures (exists f :: f in flavors && share(f) > 0.0) ==> SumOver(flavors, share) > 0.0
  {
    if flavors != [] {
      var init, last := flavors[..|flavors| - 1], flavors[|flavors| - 1];
      SumOverSign(init, share);
      assert flavors == init + [last];
      assert forall f :: f in flavors ==> f in init || f == last;
    }
  }

  /** When every flavor has the same share `c`, the sum is `c` once per
      flavor. */
  lemma {:induction false} SumOverEqualShares(flavors: seq<Flavor>, share: Flavor -> real, c: real)
    requires forall f :: share(f) == c
    ensures SumOver(flavors, share) == |flavors| as real * c
  {
    if flavors != [] {
      var init := flavors[..|flavors| - 1];
      SumOverEqualShares(init, share, c);
      MultiplySuccessor(|flavors| as real, |init| as real, c);
    }
  }

  /** When only flavor `g` has a share, `c`, the sum is `c` once per
      occurrence of `g`. */
  lemma SumOverOneContributor(flavors: seq<Flavor>, share: Flavor -> real, g: Flavor, c: real)
    requires forall f :: share(f) == (if f == g then c else 0.0)
    ensures SumOver(flavors, share) == Count(flavors, g) as real * c
  {
    SumOverRepeat(flavors, share, g, c);
    RepeatIsProduct(Count(flavors, g), c);
  }

  /** The same sum as `c` added once per occurrence of `g`. */
  lemma {:induction false} SumOverRepeat(flavors: seq<Flavor>, share: Flavor -> real, g: Flavor, c: real)
    requires forall f :: share(f) == (if f == g then c else 0.0)
    ensures SumOver(flavors, share) == Repeat(Count(flavors, g), c)
  {
    if flavors != [] {
      SumOverRepeat(flavors[..|flavors| - 1], share, g, c);
    }
  }

  /** `c` added `k` times. */
  function Repeat(k: nat, c: real): real
  {
    if k == 0 then 0.0 else Repeat(k - 1, c) + c
  }

  /** Repeated addition is multiplication. */
  lemma {:induction false} RepeatIsProduct(k: nat, c: real)
    ensures Repeat(k, c) == k as real * c
  {
    if k > 0 {
      RepeatIsProduct(k - 1, c);
      MultiplySuccessor(k as real, (k - 1) as real, c);
    }
  }

  /** Number of times `g` was selected. */
  function Count(flavors: seq<Flavor>, g: Flavor): nat
  {
    if flavors == [] then 0
    else Count(flavors[..|flavors| - 1], g) + (if flavors[|flavors| - 1] == g then 1 else 0)
  }

  /** The count is the multiplicity of `g` in the selection. */
  lemma {:induction false} CountIsMultiplicity(flavors: seq<Flavor>, g: Flavor)
    ensures Count(flavors, g) == multiset(flavors)[g]
  {
    if flavors != [] {
      var init, last := flavors[..|flavors| - 1], flavors[|flavors| - 1];
      CountIsMultiplicity(init, g);
      assert flavors == init + [last];
      assert multiset(flavors) == multiset(init) + multiset{last};
    }
  }

  /** Every total amount of a mix is positive. */
  lemma MixedAmountsPositive(flavors: seq<Flavor>, size: Size)
    requires flavors != []
    ensures forall i :: i in MixedRequirements(flavors, size) ==> MixedRequirements(flavors, size)[i] > 0.0
  {
    forall i | i in MixedRequirements(flavors, size)
      ensures MixedRequirements(flavors, size)[i] > 0.0
    {
      var n := |flavors|;
      var f :| f in flavors && i in RequiredIngredients(Recipe(f, size));
      SumOverSign(flavors, g => Share(g, size, i, n));
      assert (g => Share(g, size, i, n))(f) > 0.0;
    }
  }

  /** Ice, condensed milk and sugar in a mix total exactly one drink's worth,
      however many flavors are blended. */
  lemma MixedBaseEqualsSingleDrink(flavors: seq<Flavor>, size: Size, i: Ingredient)
    requires flavors != []
    requires i == Ice || i == CondensedMilk || i == Sugar
    ensures i in MixedRequirements(flavors, size)
    ensures MixedRequirements(flavors, size)[i] == RequiredIngredients(Recipe(flavors[0], size))[i]
  {
    assert i in RequiredIngredients(Recipe(flavors[0], size));
    BaseShareSum(flavors, size, i);
  }

  /** The shares of a base ingredient add up to one drink's amount. */
  lemma BaseShareSum(flavors: seq<Flavor>, size: Size, i: Ingredient)
    requires flavors != []
    requires i == Ice || i == CondensedMilk || i == Sugar
    ensures ShareSum(flavors, size, i, |flavors|) == RequiredIngredients(Recipe(flavors[0], size))[i]
  {
    var n := |flavors|;
    var share := g => Share(g, size, i, n);
    forall f ensures share(f) == RequiredIngredients(Recipe(flavors[0], size))[i] / n as real {
      BaseShareIgnoresFlavor(f, flavors[0], size, i, n);
    }
    SumOfEqualParts(flavors, share, RequiredIngredients(Recipe(flavors[0], size))[i]);
  }

  /** Splitting `a` into one equal part per flavor and adding the parts up
      gives back `a`. */
  lemma SumOfEqualParts(flavors: seq<Flavor>, share: Flavor -> real, a: real)
    requires flavors != []
    requires forall f :: share(f) == a / |flavors| as real
    ensures SumOver(flavors, share) == a
  {
    SumOverEqualShares(flavors, share, a / |flavors| as real);
    DivideThenMultiply(a, |flavors| as real);
  }

  /** Every flavor has the same share of a base ingredient. */
  lemma BaseShareIgnoresFlavor(f: Flavor, g: Flavor, size: Size, i: Ingredient, n: nat)
    requires n > 0
    requires i == Ice || i == CondensedMilk || i == Sugar
    ensures Share(f, size, i, n) == Share(g, size, i, n)
  {
    BaseIngredientsIgnoreFlavor(f, g, size, i);
  }

  /** A flavor's fruit in a mix is its full-size amount, times the number of
      times the flavor was selected, divided by the number of selections. */
  lemma MixedFruitAmount(flavors: seq<Flavor>, size: Size, g: Flavor)
    requires g in flavors
    ensures FruitOf(g) in MixedRequirements(flavors, size)
    ensures MixedRequirements(flavors, size)[FruitOf(g)]
         == multiset(flavors)[g] as real * (RequiredIngredients(Recipe(g, size))[FruitOf(g)] / |flavors| as real)
  {
    assert FruitOf(g) in MixedKeys(flavors, size) by {
      assert FruitOf(g) in RequiredIngredients(Recipe(g, size));
    }
    FruitShareSum(flavors, size, g);
  }

  /** The shares of a fruit come from the flavor blended from it, once per
      selection. */
  lemma FruitShareSum(flavors: seq<Flavor>, size: Size, g: Flavor)
    requires flavors != []
    ensures ShareSum(flavors, size, FruitOf(g), |flavors|)
         == multiset(flavors)[g] as real * (RequiredIngredients(Recipe(g, size))[FruitOf(g)] / |flavors| as real)
  {
    FruitSharesCounted(flavors, size, g, |flavors|);
    CountIsMultiplicity(flavors, g);
  }

  /** The shares of a fruit in a mix of `n`, counted by selections of the
      flavor blended from it. */
  lemma FruitSharesCounted(flavors: seq<Flavor>, size: Size, g: Flavor, n: nat)
    requires n > 0
    ensures ShareSum(flavors, size, FruitOf(g), n)
         == Count(flavors, g) as real * (RequiredIngredients(Recipe(g, size))[FruitOf(g)] / n as real)
  {
    var c := RequiredIngredients(Recipe(g, size))[FruitOf(g)] / n as real;
    var share := f => Share(f, size, FruitOf(g), n);
    forall f ensures share(f) == (if f == g then c else 0.0) {
      FruitShareOf(f, g, size, n);
    }
    SumOverOneContributor(flavors, share, g, c);
  }


  /** Only the flavor blended from a fruit has a share of it. */
  lemma FruitShareOf(f: Flavor, g: Flavor, size: Size, n: nat)
    requires n > 0
    ensures Share(f, size, FruitOf(g), n)
         == if f == g then RequiredIngredients(Recipe(g, size))[FruitOf(g)] / n as real else 0.0
  {
    FruitOfInjective(f, g);
  }

  /** A "mix" of one flavor needs exactly what the plain drink needs. */
  lemma MixOfOneIsPlainDrink(f: Flavor, size: Size)
    ensures MixedRequirements([f], size) == RequiredIngredients(Recipe(f, size))
  {
    var mixed, plain := MixedRequirements([f], size), RequiredIngredients(Recipe(f, size));
    forall i ensures i in mixed <==> i in plain {
      MixedKeysExtend([], f, size, i);
      assert [] + [f] == [f];
    }
    forall i | i in mixed ensures mixed[i] == plain[i] {
      OneShareIsWhole(f, size, i);
    }
  }

  /** A lone flavor's share of an ingredient is the whole amount. */
  lemma OneShareIsWhole(f: Flavor, size: Size, i: Ingredient)
    ensures ShareSum([f], size, i, 1) == if i in RequiredIngredients(Recipe(f, size)) then RequiredIngredients(Recipe(f, size))[i] else 0.0
  {
    ShareSumExtend([], f, size, i, 1);
    assert [] + [f] == [f];
  }


  // ---------------------------------------------------------------------
  // Low stock

  /** The size whose recipe is the yardstick for low stock. */
  const ReferenceSize: Size := Medium

  /** Ingredient `i` cannot cover `threshold` reference-size drinks of flavor `f`. */
  predicate IsLow(stock: Stock, threshold: int, f: Flavor, i: Ingredient)
  {
    var req := RequiredIngredients(Recipe(f, ReferenceSize));
    i in req && Quantity(stock, i) < req[i] * threshold as real
  }

  /** The low-stock test for one stock and threshold, as a value. */
  function Lowness(stock: Stock, threshold: int): (Flavor, Ingredient) -> bool
  {
    (f, i) => IsLow(stock, threshold, f, i)
  }

  /** The ingredients of `order` that `low` flags for flavor `f`, in the
      order of `order`. */
  function FlaggedFor(f: Flavor, order: seq<Ingredient>, low: (Flavor, Ingredient) -> bool): seq<Ingredient>
  {
    if order == [] then []
    else
      var i := order[|order| - 1];
      FlaggedFor(f, order[..|order| - 1], low) + (if low(f, i) then [i] else [])
  }

  /** Ingredients flagged for each flavor in turn, repeats included. */
  function Flagged(flavors: seq<Flavor>, order: seq<Ingredient>, low: (Flavor, Ingredient) -> bool): seq<Ingredient>
  {
    if flavors == [] then []
    else Flagged(flavors[..|flavors| - 1], order, low) + FlaggedFor(flavors[|flavors| - 1], order, low)
  }

  /** The elements of `xs`, each kept at its first occurrence only. */
  function Dedup<T(==,!new)>(xs: seq<T>): (r: seq<T>)
    ensures forall x :: x in r <==> x in xs
    ensures forall j, k :: 0 <= j < k < |r| ==> r[j] != r[k]
  {
    if xs == [] then []
    else
      var init, last := xs[..|xs| - 1], xs[|xs| - 1];
      assert xs == init + [last];
      var rest := Dedup(init);
      if last in rest then rest else rest + [last]
  }

  /** Ingredients running low, without repeats, in the order they are first
      flagged. */
  function LowStock(stock: Stock, threshold: int): seq<Ingredient>
  {
    Dedup(Flagged(AllFlavors, AllIngredients, Lowness(stock, threshold)))
  }

  /** Position of the first occurrence of `x`. */
  function FirstIndex<T(==,!new)>(xs: seq<T>, x: T): (k: nat)
    requires x in xs
    ensures k < |xs| && xs[k] == x && x !in xs[..k]
  {
    if xs[0] == x then 0
    else
      var k := 1 + FirstIndex(xs[1..], x);
      assert xs[..k] == [xs[0]] + xs[1..][..k - 1];
      k
  }

  /** The first occurrence is the only occurrence with no earlier one. */
  lemma FirstIndexUnique<T(!new)>(xs: seq<T>, x: T, k: nat)
    requires k < |xs| && xs[k] == x && x !in xs[..k]
    ensures FirstIndex(xs, x) == k
  {
    var k0 := FirstIndex(xs, x);
    if k0 < k {
      assert false;
    } else if k < k0 {
      assert false;
    }
  }

  /** Appending leaves the first occurrence of earlier elements in place. */
  lemma FirstIndexAppend<T(!new)>(xs: seq<T>, y: T, x: T)
    requires x in xs
    ensures x in xs + [y] && FirstIndex(xs + [y], x) == FirstIndex(xs, x)
  {
    var k := FirstIndex(xs, x);
    assert (xs + [y])[..k] == xs[..k];
    FirstIndexUnique(xs + [y], x, k);
  }

  /** Removing repeats keeps first-seen order: earlier entries of the result
      occur for the first time earlier in the input. */
  lemma {:induction false} DedupKeepsFirstSeenOrder<T(!new)>(xs: seq<T>)
    ensures forall j, k :: 0 <= j < k < |Dedup(xs)| ==> FirstIndex(xs, Dedup(xs)[j]) < FirstIndex(xs, Dedup(xs)[k])
  {
    if xs != [] {
      var init, last := xs[..|xs| - 1], xs[|xs| - 1];
      assert xs == init + [last];
      DedupKeepsFirstSeenOrder(init);
      var rest := Dedup(init);
      forall x | x in init ensures FirstIndex(xs, x) == FirstIndex(init, x) {
        FirstIndexAppend(init, last, x);
      }
      if last !in rest {
        FirstIndexUnique(xs, last, |init|);
      }
    }
  }

  /** An ingredient is flagged for `f` exactly when it is listed and `low`
      holds of it. */
  lemma {:induction false} FlaggedForMembership(f: Flavor, order: seq<Ingredient>, low: (Flavor, Ingredient) -> bool, i: Ingredient)
    ensures i in FlaggedFor(f, order, low) <==> i in order && low(f, i)
  {
    if order != [] {
      var init := order[..|order| - 1];
      FlaggedForMembership(f, init, low, i);
      assert order == init + [order[|order| - 1]];
    }
  }

  /** An ingredient is flagged for some flavors exactly when it is listed and
      `low` holds of it for one of them. */
  lemma {:induction false} FlaggedMembership(flavors: seq<Flavor>, order: seq<Ingredient>, low: (Flavor, Ingredient) -> bool, i: Ingredient)
    ensures i in Flagged(flavors, order, low) <==> i in order && exists f :: f in flavors && low(f, i)
  {
    if flavors != [] {
      var init, last := flavors[..|flavors| - 1], flavors[|flavors| - 1];
      FlaggedMembership(init, order, low, i);
      FlaggedForMembership(last, order, low, i);
      assert flavors == init + [last];
      assert forall f :: f in flavors <==> f in init || f == last;
    }
  }

  /** An ingredient is reported low exactly when some flavor's reference
      drink, made `threshold` times, needs more of it than is on hand. */
  lemma LowStockMembership(stock: Stock, threshold: int, i: Ingredient)
    ensures i in LowStock(stock, threshold) <==> exists f :: IsLow(stock, threshold, f, i)
  {
    var low := Lowness(stock, threshold);
    FlaggedMembership(AllFlavors, AllIngredients, low, i);
    assert i in AllIngredients by {
      assert AllIngredients[Ordinal(i)] == i;
    }
    if i in LowStock(stock, threshold) {
      var f :| f in AllFlavors && low(f, i);
      assert IsLow(stock, threshold, f, i);
    }
    if exists f :: IsLow(stock, threshold, f, i) {
      var f :| IsLow(stock, threshold, f, i);
      assert low(f, i);
      assert f in AllFlavors by {
        match f
        case Strawberry => assert AllFlavors[0] == f;
        case Banana => assert AllFlavors[1] == f;
        case Mango => assert AllFlavors[2] == f;
      }
    }
  }

  /** Nothing is reported low exactly when the stock covers `threshold`
      reference-size drinks of every flavor. */
  lemma LowStockEmptyIffCovered(stock: Stock, threshold: int)
    ensures LowStock(stock, threshold) == [] <==> forall f, i :: !IsLow(stock, threshold, f, i)
  {
    var low := LowStock(stock, threshold);
    if low == [] {
      forall f, i ensures !IsLow(stock, threshold, f, i) {
        LowStockMembership(stock, threshold, i);
      }
    } else {
      LowStockMembership(stock, threshold, low[0]);
    }
  }

  /** The starting inventory supports four reference drinks of every
      flavor, so nothing is low at a threshold of four. */
  lemma FreshInventoryNotLowAtFour()
    ensures LowStock(InitialStock(), 4) == []
  {
    forall f, i ensures !IsLow(InitialStock(), 4, f, i) {
      FreshStockCovers(f, i);
    }
    LowStockEmptyIffCovered(InitialStock(), 4);
  }

  /** Four reference drinks of `f` need at most what the starting inventory
      holds of `i`. */
  lemma FreshStockCovers(f: Flavor, i: Ingredient)
    ensures !IsLow(InitialStock(), 4, f, i)
  {
    var req := RequiredIngredients(Recipe(f, ReferenceSize));
    if i in req {
      assert Quantity(InitialStock(), i) >= req[i] * 4.0 by {
        match f
        case Strawberry =>
        case Banana =>
        case Mango =>
      }
    }
  }

  // ---------------------------------------------------------------------
  // The service's traversals, one step at a time

  /** `acc` after merging `req[i] / n` for each ingredient `i` of `req`
      among the first `j` in declaration order: absent keys are added,
      present ones summed. */
  function MergeShares(acc: Requirements, req: Requirements, n: nat, j: nat): Requirements
    requires n > 0 && j <= |AllIngredients|
  {
    if j == 0 then acc
    else
      var prev := MergeShares(acc, req, n, j - 1);
      var i := AllIngredients[j - 1];
      if i !in req then prev
      else if i in prev then prev[i := prev[i] + req[i] / n as real]
      else prev[i := req[i] / n as real]
  }

  /** Merging adds an ingredient once it is reached, if it is required. */
  lemma {:induction false} MergeSharesKeys(acc: Requirements, req: Requirements, n: nat, j: nat, i: Ingredient)
    requires n > 0 && j <= |AllIngredients|
    ensures i in MergeShares(acc, req, n, j) <==> i in acc || (i in req && Ordinal(i) < j)
  {
    if j > 0 {
      MergeSharesKeys(acc, req, n, j - 1, i);
      OrdinalAt(j - 1);
    }
  }

  /** Merging adds an ingredient's share, once it is reached, to what `acc`
      held of it. */
  lemma {:induction false} MergeSharesAt(acc: Requirements, req: Requirements, n: nat, j: nat, i: Ingredient)
    requires n > 0 && j <= |AllIngredients|
    ensures i in MergeShares(acc, req, n, j) <==> i in acc || (i in req && Ordinal(i) < j)
    ensures i in MergeShares(acc, req, n, j) ==>
      MergeShares(acc, req, n, j)[i]
        == (if i in acc then acc[i] else 0.0) + (if i in req && Ordinal(i) < j then req[i] / n as real else 0.0)
  {
    MergeSharesKeys(acc, req, n, j, i);
    if j > 0 {
      MergeSharesAt(acc, req, n, j - 1, i);
      OrdinalAt(j - 1);
      MergeSharesKeys(acc, req, n, j - 1, i);
    }
  }

  /** Which ingredients the merge of flavor `k` leaves in the combination. */
  lemma CombinedStepKeys(flavors: seq<Flavor>, k: nat, size: Size, n: nat, i: Ingredient)
    requires n > 0 && k < |flavors|
    ensures i in Combined(flavors[..k + 1], size, n)
        <==> i in MergeShares(Combined(flavors[..k], size, n), RequiredIngredients(Recipe(flavors[k], size)), n, |AllIngredients|)
  {
    assert flavors[..k + 1] == flavors[..k] + [flavors[k]];
    MixedKeysExtend(flavors[..k], flavors[k], size, i);
    MergeSharesAt(Combined(flavors[..k], size, n), RequiredIngredients(Recipe(flavors[k], size)), n, |AllIngredients|, i);
  }

  /** The amount the merge of flavor `k` leaves for an ingredient. */
  lemma CombinedStepValue(flavors: seq<Flavor>, k: nat, size: Size, n: nat, i: Ingredient)
    requires n > 0 && k < |flavors|
    requires i in Combined(flavors[..k + 1], size, n)
    ensures i in MergeShares(Combined(flavors[..k], size, n), RequiredIngredients(Recipe(flavors[k], size)), n, |AllIngredients|)
    ensures Combined(flavors[..k + 1], size, n)[i]
         == MergeShares(Combined(flavors[..k], size, n), RequiredIngredients(Recipe(flavors[k], size)), n, |AllIngredients|)[i]
  {
    var before := Combined(flavors[..k], size, n);
    CombinedStepKeys(flavors, k, size, n, i);
    MergedAmount(before, RequiredIngredients(Recipe(flavors[k], size)), n, i);
    CombinedAmountStep(flavors, k, size, n, i);
  }

  /** After a full merge an ingredient holds what `acc` held plus its share. */
  lemma MergedAmount(acc: Requirements, req: Requirements, n: nat, i: Ingredient)
    requires n > 0
    requires i in MergeShares(acc, req, n, |AllIngredients|)
    ensures MergeShares(acc, req, n, |AllIngredients|)[i]
         == (if i in acc then acc[i] else 0.0) + (if i in req then req[i] / n as real else 0.0)
  {
    MergeSharesAt(acc, req, n, |AllIngredients|, i);
  }

  /** Adding flavor `k` to the combination adds its share of an ingredient. */
  lemma CombinedAmountStep(flavors: seq<Flavor>, k: nat, size: Size, n: nat, i: Ingredient)
    requires n > 0 && k < |flavors|
    requires i in Combined(flavors[..k + 1], size, n)
    ensures Combined(flavors[..k + 1], size, n)[i]
         == (if i in Combined(flavors[..k], size, n) then Combined(flavors[..k], size, n)[i] else 0.0)
            + Share(flavors[k], size, i, n)
  {
    var f := flavors[k];
    assert flavors[..k + 1] == flavors[..k] + [f];
    ShareSumExtend(flavors[..k], f, size, i, n);
    if i !in Combined(flavors[..k], size, n) {
      ShareSumOutsideKeys(flavors[..k], size, i, n);
    }
  }

  /** Merging the shares of flavor `k` into the combination of the flavors
      before it gives the combination of the flavors up to and including
      it. */
  lemma CombinedStep(flavors: seq<Flavor>, k: nat, size: Size, n: nat)
    requires n > 0 && k < |flavors|
    ensures Combined(flavors[..k + 1], size, n)
         == MergeShares(Combined(flavors[..k], size, n), RequiredIngredients(Recipe(flavors[k], size)), n, |AllIngredients|)
  {
    var after := Combined(flavors[..k + 1], size, n);
    var merged := MergeShares(Combined(flavors[..k], size, n), RequiredIngredients(Recipe(flavors[k], size)), n, |AllIngredients|);
    forall i ensures i in after <==> i in merged {
      CombinedStepKeys(flavors, k, size, n, i);
    }
    forall i | i in after ensures after[i] == merged[i] {
      CombinedStepValue(flavors, k, size, n, i);
    }
  }

  /** The combination starts empty and ends as the mix's requirements. */
  lemma CombinedEnds(flavors: seq<Flavor>, size: Size)
    requires flavors != []
    ensures Combined(flavors[..0], size, |flavors|) == map[]
    ensures Combined(flavors[..|flavors|], size, |flavors|) == MixedRequirements(flavors, size)
  {
    assert flavors[..|flavors|] == flavors;
  }

  /** `acc` after scanning `order` for flavor `f`: each ingredient `low`
      flags and `acc` does not hold yet is appended. */
  function ScanFlavor(acc: seq<Ingredient>, f: Flavor, order: seq<Ingredient>, low: (Flavor, Ingredient) -> bool): seq<Ingredient>
  {
    if order == [] then acc
    else
      var prev := ScanFlavor(acc, f, order[..|order| - 1], low);
      var i := order[|order| - 1];
      if low(f, i) && i !in prev then prev + [i] else prev
  }

  /** Scanning with a repeat check extends the repeat-free list by the
      newly flagged ingredients. */
  lemma {:induction false} ScanFlavorDedup(xs: seq<Ingredient>, f: Flavor, order: seq<Ingredient>, low: (Flavor, Ingredient) -> bool)
    ensures ScanFlavor(Dedup(xs), f, order, low) == Dedup(xs + FlaggedFor(f, order, low))
  {
    if order == [] {
      assert xs + [] == xs;
    } else {
      var init, i := order[..|order| - 1], order[|order| - 1];
      ScanFlavorDedup(xs, f, init, low);
      var ys := xs + FlaggedFor(f, init, low);
      if low(f, i) {
        assert xs + FlaggedFor(f, order, low) == ys + [i];
        assert (ys + [i])[..|ys + [i]| - 1] == ys;
      } else {
        assert xs + FlaggedFor(f, order, low) == ys;
      }
    }
  }

  /** Scanning flavor `k` after the flavors before it gives the low-stock
      list of the flavors up to and including it. */
  lemma ScanStep(k: nat, low: (Flavor, Ingredient) -> bool)
    requires k < |AllFlavors|
    ensures ScanFlavor(Dedup(Flagged(AllFlavors[..k], AllIngredients, low)), AllFlavors[k], AllIngredients, low)
         == Dedup(Flagged(AllFlavors[..k + 1], AllIngredients, low))
  {
    ScanFlavorDedup(Flagged(AllFlavors[..k], AllIngredients, low), AllFlavors[k], AllIngredients, low);
    assert AllFlavors[..k + 1][..k] == AllFlavors[..k];
  }

  /** The scan starts empty and ends as the low-stock list. */
  lemma ScanEnds(stock: Stock, threshold: int)
    ensures Dedup(Flagged(AllFlavors[..0], AllIngredients, Lowness(stock, threshold))) == []
    ensures Dedup(Flagged(AllFlavors[..|AllFlavors|], AllIngredients, Lowness(stock, threshold))) == LowStock(stock, threshold)
  {
    assert AllFlavors[..|AllFlavors|] == AllFlavors;
  }

  /** The service's test for one flavor, over that flavor's reference
      requirements, is the low-stock test. */
  lemma LownessFor(stock: Stock, threshold: int, f: Flavor, required: Requirements)
    requires required == RequiredIngredients(Recipe(f, ReferenceSize))
    ensures forall i :: Lowness(stock, threshold)(f, i) <==> i in required && Quantity(stock, i) < required[i] * threshold as real
  {
  }
}
