/** Shared value types of the inventory model: optional values, the outcome of a
    controller action, and clock readings. */
module Base {

  datatype Option<+T> = None | Some(value: T)

  /** Why a controller action refused. `NotFound` is the 404 of route-model binding,
      `Forbidden` the 403 of a role or ownership check, `Invalid` a failed validation
      naming the offending input fields; `InsufficientStock` and `AlreadyProcessed` are
      the redirects back with an error message. `DuplicateCode` is the insert of an item
      whose code an item already has, which the unique index on the code column refuses,
      so the request fails and no row is added. */
  datatype Error =
    | NotFound
    | Forbidden
    | Invalid(fields: set<Field>)
    | InsufficientStock
    | AlreadyProcessed
    | DuplicateCode

  /** The input fields a failed validation can name, one constructor per form field:
      name, type, category_id, supplier_id, unit, size, stock_quantity, no_sj, site,
      item_id, quantity, notes and action. */
  datatype Field =
    | Name | Type | CategoryId | SupplierId | Unit | Size | StockQuantity
    | NoSj | Site | ItemId | Quantity | Notes | Action

  datatype Result<+T> = Success(value: T) | Failure(error: Error)

  /** A clock reading, supplied by the caller: the calendar day (what a date filter
      compares) and the second within that day. */
  datatype Moment = Moment(day: int, second: nat)
}
