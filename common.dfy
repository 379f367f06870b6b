/** Value wrappers shared by the whole model: nullable values, partial
    updates and the results of service calls that may throw. */
module Common {

  /** A nullable column or an optional argument (`null`/`undefined` is None). */
  datatype Option<+T> = None | Some(value: T)

  /** One field of a `Partial<Entity>` handed to `repository.update`: an
      absent key keeps the stored value, a present key overwrites it. */
  datatype Patch<+T> = Keep | Set(value: T)
  {
    function ApplyTo(current: T): T
    {
      match this
      case Keep => current
      case Set(v) => v
    }
  }

  /** The errors the services throw, one constructor per distinct message. */
  datatype Failure =
    | WarehouseNotFound
    | ExclusionNotInWarehouse
    | ExclusionNotFoundAfterUpdate
    | ClientIdRequired(operation: string)
    | LocationNotOwned
    | WarehouseNotOwned
    | LocationNotFound
      /** The store refuses a write that would break a foreign key. */
    | ForeignKeyViolation
  {
    function Message(): string
    {
      match this
      case WarehouseNotFound => "Warehouse not found."
      case ExclusionNotInWarehouse => "Exclusion not found or does not belong to the warehouse."
      case ExclusionNotFoundAfterUpdate => "Exclusion not found after update"
      case ClientIdRequired(op) => "Client ID is required to " + op + "."
      case LocationNotOwned => "Location not found or does not belong to the selected client."
      case WarehouseNotOwned => "Warehouse not found or does not belong to the selected client."
      case LocationNotFound => "Location not found"
      case ForeignKeyViolation => "foreign key constraint fails"
    }
  }

  /** The outcome of a service call: a value, or the error it throws. */
  datatype Result<+T> = Ok(value: T) | Err(error: Failure)

  /** JavaScript truthiness of a numeric id: `!clientId` holds exactly for 0. */
  predicate Truthy(n: int)
  {
    n != 0
  }
}
