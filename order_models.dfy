/** The entities the order service works on: orders, their line items and
    the outcome of a service call. */
module OrderModels {

  datatype Option<+T> = None | Some(value: T)

  /** The status of an order. The service names only Pending and Cancelled;
      OtherStatus stands for every other value of the enumeration. */
  datatype OrderStatus = Pending | Cancelled | OtherStatus(code: int)

  /** One line of an order. Apart from orderId, which ties the line to its
      parent order, the fields are opaque to the service. */
  datatype OrderLineItem = OrderLineItem(
    orderLineItemId: int,
    orderId: int,
    productId: int,
    quantity: int)

  /** An order. orderLineItems is None when the list is absent (null);
      purchasedOn is an opaque timestamp chosen by the caller. */
  datatype Order = Order(
    orderId: int,
    orderStatus: OrderStatus,
    userId: int,
    purchasedOn: int,
    orderLineItems: Option<seq<OrderLineItem>>)

  /** The business rule that an InvalidRequest reports. */
  datatype Rejection = NoLineItems | NoOrderToCancel | AlreadyCancelled | NoOrderToDelete

  /** The outcome of a service call: a value, or an InvalidRequestException. */
  datatype Result<+T> = Ok(value: T) | InvalidRequest(rejection: Rejection)

  /** The order carries a line-item list holding at least one entry. */
  predicate HasLineItems(order: Order) {
    match order.orderLineItems
    case None => false
    case Some(items) => |items| > 0
  }

  /** The line items a line-item store holds for an order: none when the
      order id is not a key. */
  function ItemsOf(store: map<int, seq<OrderLineItem>>, orderId: int): seq<OrderLineItem> {
    if orderId in store then store[orderId] else []
  }
}
