/** The inventory store: on-hand quantity per ingredient, never negative,
    changed only by a checked set or a checked reduction. */
module Inventory {
  import opened Catalog
  import opened Recipes
  import opened Errors

  /** On-hand quantities; an absent ingredient has none. */
  type Stock = map<Ingredient, real>

  /** Quantity on hand: zero for an ingredient never stored. */
  function Quantity(stock: Stock, i: Ingredient): (q: real)
    ensures i !in stock ==> q == 0.0
    ensures NonNegative(stock) ==> q >= 0.0
  {
    if i in stock then stock[i] else 0.0
  }

  /** The store's invariant. */
  predicate NonNegative(stock: Stock)
  {
    forall i :: i in stock ==> stock[i] >= 0.0
  }

  /** The stock holds at least each required amount. */
  predicate Covers(stock: Stock, req: Requirements)
  {
    forall i :: i in req ==> Quantity(stock, i) >= req[i]
  }

  /** The stock after every required amount has been taken out; ingredients
      not required keep their quantity. */
  function Consumed(stock: Stock, req: Requirements): (after: Stock)
    ensures after.Keys == stock.Keys + req.Keys
    ensures forall i :: i !in req ==> Quantity(after, i) == Quantity(stock, i)
    ensures forall i :: i in req ==> Quantity(after, i) == Quantity(stock, i) - req[i]
  {
    map i | i in stock.Keys + req.Keys :: if i in req then Quantity(stock, i) - req[i] else stock[i]
  }

  /** Taking out amounts the stock covers keeps it non-negative. */
  lemma ConsumedStaysNonNegative(stock: Stock, req: Requirements)
    requires NonNegative(stock) && Covers(stock, req)
    ensures NonNegative(Consumed(stock, req))
  {
    var after := Consumed(stock, req);
    forall i | i in after ensures after[i] >= 0.0 {
      assert after[i] == Quantity(after, i);
    }
  }

  /** The running stock of a traversal in declaration order after `k`
      steps, each step taking one required amount out. */
  function Drained(start: Stock, req: Requirements, k: nat): Stock
    requires k <= |AllIngredients|
  {
    if k == 0 then start
    else TakeOut(Drained(start, req, k - 1), req, AllIngredients[k - 1])
  }

  /** The stock after taking the required amount of `i` out, if `i` is
      required at all. */
  function TakeOut(prev: Stock, req: Requirements, i: Ingredient): Stock
  {
    if i in req then prev[i := Quantity(prev, i) - req[i]] else prev
  }

  /** After `k` steps the traversal has taken out exactly the amounts of
      the ingredients before position `k`. */
  lemma {:induction false} DrainedAt(start: Stock, req: Requirements, k: nat, i: Ingredient)
    requires k <= |AllIngredients|
    ensures i in Drained(start, req, k) <==> i in start || (i in req && Ordinal(i) < k)
    ensures Quantity(Drained(start, req, k), i) == Quantity(start, i) - (if i in req && Ordinal(i) < k then req[i] else 0.0)
  {
    if k > 0 {
      DrainedAt(start, req, k - 1, i);
      OrdinalAt(k - 1);
    }
  }

  /** The complete traversal takes out every required amount. */
  lemma DrainedIsConsumed(start: Stock, req: Requirements)
    ensures Drained(start, req, |AllIngredients|) == Consumed(start, req)
  {
    var drained, consumed := Drained(start, req, |AllIngredients|), Consumed(start, req);
    forall i ensures i in drained <==> i in consumed {
      DrainedAt(start, req, |AllIngredients|, i);
    }
    forall i | i in drained ensures drained[i] == consumed[i] {
      DrainedAt(start, req, |AllIngredients|, i);
      assert drained[i] == Quantity(drained, i) && consumed[i] == Quantity(consumed, i);
    }
  }

  /** The ingredient at position `k` is untouched by the first `k` steps. */
  lemma DrainedBeforeStep(start: Stock, req: Requirements, k: nat)
    requires k < |AllIngredients|
    ensures Quantity(Drained(start, req, k), AllIngredients[k]) == Quantity(start, AllIngredients[k])
  {
    DrainedAt(start, req, k, AllIngredients[k]);
    OrdinalAt(k);
  }

  /** The starting quantities: 5000 g strawberries, 6000 g bananas, 4000 g
      mango, 10000 ml ice, 3000 ml condensed milk, 2000 g sugar. */
  function InitialStock(): (stock: Stock)
    ensures NonNegative(stock)
    ensures forall n :: 0 <= n < |AllIngredients| ==> AllIngredients[n] in stock
  {
    map[Strawberries := 5000.0, Bananas := 6000.0, Ingredient.Mango := 4000.0,
        Ice := 10000.0, CondensedMilk := 3000.0, Sugar := 2000.0]
  }

  class InMemoryInventoryRepository {
    var inventory: Stock

    ghost predicate Valid()
      reads this
    {
      NonNegative(inventory)
    }

    /** A new store holds the starting quantities. */
    constructor ()
      ensures Valid() && inventory == InitialStock()
    {
      inventory := map[];
      new;
      InitializeInventory();
    }

    /** Quantity on hand; zero for an ingredient never stored. */
    function GetQuantity(ingredient: Ingredient): (q: real)
      reads this
      ensures Valid() ==> q >= 0.0
      ensures ingredient !in inventory ==> q == 0.0
    {
      Quantity(inventory, ingredient)
    }

    /** Overwrites one ingredient's quantity; a negative quantity is refused
        and changes nothing. */
    method SetQuantity(ingredient: Ingredient, quantity: real) returns (outcome: Outcome)
      requires Valid()
      modifies this
      ensures Valid()
      ensures outcome.Pass? <==> quantity >= 0.0
      ensures outcome.Fail? ==> outcome.error == InvalidArgument && inventory == old(inventory)
      ensures outcome.Pass? ==> inventory == old(inventory)[ingredient := quantity]
    {
      if quantity < 0.0 {
        return Fail(InvalidArgument);
      }
      inventory := inventory[ingredient := quantity];
      outcome := Pass;
    }

    /** Takes `amount` out of one ingredient; a negative amount or one larger
        than the quantity on hand is refused and changes nothing. */
    method ReduceQuantity(ingredient: Ingredient, amount: real) returns (outcome: Outcome)
      requires Valid()
      modifies this
      ensures Valid()
      ensures outcome.Pass? <==> 0.0 <= amount <= old(GetQuantity(ingredient))
      ensures outcome.Fail? ==> outcome.error == InvalidArgument && inventory == old(inventory)
      ensures outcome.Pass? ==> inventory == old(inventory)[ingredient := old(GetQuantity(ingredient)) - amount]
    {
      if amount < 0.0 {
        return Fail(InvalidArgument);
      }
      var currentQuantity := GetQuantity(ingredient);
      if amount > currentQuantity {
        return Fail(InvalidArgument);
      }
      outcome := SetQuantity(ingredient, currentQuantity - amount);
    }

    /** Whether at least `amount` is on hand; a non-positive amount always is. */
    function IsAvailable(ingredient: Ingredient, amount: real): (b: bool)
      reads this
      ensures b <==> Quantity(inventory, ingredient) >= amount
      ensures Valid() && amount <= 0.0 ==> b
    {
      GetQuantity(ingredient) >= amount
    }

    /** A snapshot of every stored quantity. Maps are values, so later
        changes to the store cannot reach a snapshot already taken. */
    function GetAllInventory(): (snapshot: Stock)
      reads this
      ensures forall i :: Quantity(snapshot, i) == GetQuantity(i)
      ensures Valid() ==> NonNegative(snapshot)
    {
      inventory
    }

    /** Resets every ingredient to its starting quantity. */
    method InitializeInventory()
      modifies this
      ensures Valid() && inventory == InitialStock()
    {
      inventory := inventory[Strawberries := 5000.0];
      inventory := inventory[Bananas := 6000.0];
      inventory := inventory[Ingredient.Mango := 4000.0];
      inventory := inventory[Ice := 10000.0];
      inventory := inventory[CondensedMilk := 3000.0];
      inventory := inventory[Sugar := 2000.0];
      forall k: Ingredient ensures k in inventory && k in InitialStock() {
        assert k == AllIngredients[Ordinal(k)];
      }
      assert inventory.Keys == InitialStock().Keys;
    }
  }
}
