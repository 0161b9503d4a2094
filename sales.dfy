/** A sale: the recipe sold, when, and the price charged. */
module Sales {
  import opened Recipes
  import opened Errors

  /** A calendar date, as a day number; only compared for equality. */
  type Date = int

  /** A point in time: its calendar date and the time within that day. */
  datatype DateTime = DateTime(date: Date, timeOfDay: nat)

  /** An immutable sale record. Equal sales agree on recipe, time and price. */
  datatype Sale = Sale(recipe: Recipe, saleTime: DateTime, price: real)

  /** What the constructor guarantees of every sale it lets through. */
  predicate ValidSale(s: Sale)
  {
    s.price >= 0.0
  }

  /** Every sale in the list is valid. */
  predicate AllValid(sales: seq<Sale>)
  {
    forall s :: s in sales ==> ValidSale(s)
  }

  /** The checked constructor: a negative price is refused, anything else is
      kept exactly as given. */
  function NewSale(recipe: Recipe, price: real, saleTime: DateTime): (r: Result<Sale>)
    ensures r.Ok? <==> price >= 0.0
    ensures r.Err? ==> r.error == InvalidArgument
    ensures r.Ok? ==> (r.value.recipe == recipe && r.value.price == price &&
                       r.value.saleTime == saleTime && ValidSale(r.value))
  {
    if price < 0.0 then Err(InvalidArgument) else Ok(Sale(recipe, saleTime, price))
  }
}
