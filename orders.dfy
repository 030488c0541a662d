/**
 * The order entity of the service (the generated OpenAPI model classes
 * `Order`, `NewOrder`, `EditedOrder` and `StatusEnum`). Every field of the
 * Java beans is a nullable reference, so every field here is optional.
 */
module Orders {
  import opened Wrappers

  /** The three constants of `StatusEnum`. */
  datatype Status = Placed | Approved | Delivered

  /** An `OffsetDateTime`, kept as an opaque value. */
  datatype OffsetDateTime = OffsetDateTime(epochSecond: int, nano: int, offsetSeconds: int)

  datatype Order = Order(
    id: Option<int>,
    productId: Option<int>,
    quantity: Option<int>,
    date: Option<OffsetDateTime>,
    status: Option<Status>,
    complete: Option<bool>)

  /** The body of a create request. */
  datatype NewOrder = NewOrder(productId: Option<int>, quantity: Option<int>)

  /** The body of a patch request. */
  datatype EditedOrder = EditedOrder(status: Option<Status>, complete: Option<bool>, quantity: Option<int>)

  /** `new Order()` followed by `setId(id)`: every other field unset. */
  function OrderWithId(id: int): Order {
    Order(Some(id), None, None, None, None, None)
  }
}
