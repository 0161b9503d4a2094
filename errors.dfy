/** The two failure kinds of the vendor core, carried as values instead of
    thrown exceptions. */
module Errors {
  import opened Catalog

  datatype VendorError =
    /** A sale cannot proceed: `ingredient` needs `required` but only
        `available` is on hand. */
    | InsufficientInventory(ingredient: Ingredient, required: real, available: real)
    /** A caller error: a negative quantity, an over-large reduction, a
        negative price or an empty flavor selection. */
    | InvalidArgument

  /** The value of an operation that may fail. */
  datatype Result<T> = Ok(value: T) | Err(error: VendorError)

  /** The result of an operation that returns nothing when it succeeds. */
  datatype Outcome = Pass | Fail(error: VendorError)
}
