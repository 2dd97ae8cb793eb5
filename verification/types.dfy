/**
 Shared data model of the grocery tracker: the optional-value wrapper used for
 the record's optional fields and the `GroceryItem` record itself
 (src/types/index.ts). Instants are whole milliseconds since the epoch, the
 value a JavaScript `Date` holds.
 */
module Types {

  /** An optional value: `undefined` in the source is `None`. */
  datatype Option<+T> = None | Some(value: T) {

    /** The wrapped value, or `default` when there is none. */
    function GetOr(default: T): T {
      match this
      case Some(v) => v
      case None => default
    }
  }

  /** A point in time, in milliseconds since the epoch. */
  type Instant = int

  /** One tracked grocery. Optional properties of the source record are `Option`s. */
  datatype GroceryItem = GroceryItem(
    id: string,
    name: string,
    expiryDate: Instant,
    quantity: int,
    category: Option<string>,
    notes: Option<string>,
    reminderSet: Option<bool>
  )
}
