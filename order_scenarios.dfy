/** Clients of the order service mirroring its unit tests, proved from the
    method contracts alone. */
module OrderScenarios {
  import opened OrderModels
  import opened Repositories
  import opened OrderServices

  method NewService() returns (service: OrderService)
    ensures fresh(service.orderRepository) && fresh(service.orderLineItemRepository)
    ensures service.Valid()
    ensures service.orderRepository.orders == map[] && service.orderLineItemRepository.lineItems == map[]
    ensures service.orderRepository.nextOrderId == 1
  {
    var orders := new OrderRepository();
    var lineItems := new OrderLineItemRepository();
    service := new OrderService(orders, lineItems);
  }

  function NewOrder(lineItems: Option<seq<OrderLineItem>>): Order {
    Order(0, Pending, 42, 0, lineItems)
  }

  /** An order whose line-item list is absent or empty is rejected. */
  method CreateWithoutLineItems() returns (absent: Result<Order>, empty: Result<Order>)
    ensures absent == InvalidRequest(NoLineItems) && empty == InvalidRequest(NoLineItems)
  {
    var service := NewService();
    absent := service.CreateOrder(NewOrder(None));
    empty := service.CreateOrder(NewOrder(Some([])));
  }

  /** Deleting an id that names no order is rejected. */
  method DeleteUnknownOrder() returns (result: Result<Order>)
    ensures result == InvalidRequest(NoOrderToDelete)
  {
    var service := NewService();
    result := service.DeleteOrder(1);
  }

  /** Cancelling an id that names no order is rejected. */
  method CancelUnknownOrder() returns (result: Result<Order>)
    ensures result == InvalidRequest(NoOrderToCancel)
  {
    var service := NewService();
    result := service.CancelOrder(1);
  }

  /** Creating an order with two line items persists both under the new
      order id and returns them, in input order, on the created order. */
  method CreateWithTwoLineItems() returns (created: Result<Order>, fetched: Option<Order>)
    ensures created.Ok? && created.value.orderLineItems.Some?
    ensures var items := created.value.orderLineItems.value;
      && |items| == 2
      && items[0].productId == 100 && items[1].productId == 200
      && items[0].orderId == created.value.orderId && items[1].orderId == created.value.orderId
    ensures fetched == Some(created.value)
  {
    var service := NewService();
    var input := [OrderLineItem(0, 0, 100, 1), OrderLineItem(0, 0, 200, 3)];
    created := service.CreateOrder(NewOrder(Some(input)));
    fetched := service.GetOrder(created.value.orderId);
  }

  /** Cancelling a Pending order leaves it stored with status Cancelled. */
  method CancelPendingOrder() returns (cancelled: Result<Order>, fetched: Option<Order>)
    ensures cancelled.Ok? && cancelled.value.orderStatus == Cancelled
    ensures fetched == Some(cancelled.value)
  {
    var service := NewService();
    var created := service.CreateOrder(NewOrder(Some([OrderLineItem(0, 0, 100, 1)])));
    cancelled := service.CancelOrder(created.value.orderId);
    fetched := service.GetOrder(created.value.orderId);
  }

  /** Cancelling an order that is already Cancelled is rejected. */
  method CancelTwice() returns (first: Result<Order>, second: Result<Order>)
    ensures first.Ok?
    ensures second == InvalidRequest(AlreadyCancelled)
  {
    var service := NewService();
    var created := service.CreateOrder(NewOrder(Some([OrderLineItem(0, 0, 100, 1)])));
    first := service.CancelOrder(created.value.orderId);
    second := service.CancelOrder(created.value.orderId);
  }

  /** Deleting an order with three line items returns the order with the
      requested id and its three line items, and removes all of them. */
  method DeleteWithThreeLineItems() returns (deleted: Result<Order>, fetched: Option<Order>, remaining: seq<OrderLineItem>)
    ensures deleted.Ok? && deleted.value.orderId == 1
    ensures deleted.value.orderLineItems.Some? && |deleted.value.orderLineItems.value| == 3
    ensures fetched == None && remaining == []
  {
    var service := NewService();
    var input := [OrderLineItem(0, 0, 100, 1), OrderLineItem(0, 0, 200, 1), OrderLineItem(0, 0, 300, 1)];
    var created := service.CreateOrder(NewOrder(Some(input)));
    deleted := service.DeleteOrder(1);
    fetched := service.GetOrder(1);
    remaining := service.orderLineItemRepository.GetOrderLineItems(1);
  }
}
