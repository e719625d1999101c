/** In-memory stand-ins for the two repositories the service is given. Their
    real implementations are not part of this model; these classes fix the
    behaviour the service relies on: an order store keyed by order id that
    assigns consecutive ids, and a line-item store keyed by the parent's id. */
module Repositories {
  import opened OrderModels

  class OrderRepository {
    /** The stored order records, by id. A record carries no line items:
        those live in the line-item store. */
    var orders: map<int, Order>
    /** The id the next created order receives. */
    var nextOrderId: int

    constructor ()
      ensures orders == map[] && nextOrderId == 1
    {
      orders := map[];
      nextOrderId := 1;
    }

    /** Stores the order under a fresh id and returns the stored record. */
    method CreateOrder(order: Order) returns (created: Order)
      modifies this
      ensures created == order.(orderId := old(nextOrderId), orderLineItems := None)
      ensures orders == old(orders)[created.orderId := created]
      ensures nextOrderId == old(nextOrderId) + 1
    {
      created := order.(orderId := nextOrderId, orderLineItems := None);
      orders := orders[created.orderId := created];
      nextOrderId := nextOrderId + 1;
    }

    method GetOrder(orderId: int) returns (found: Option<Order>)
      ensures orderId in orders ==> found == Some(orders[orderId])
      ensures orderId !in orders ==> found == None
    {
      if orderId in orders {
        found := Some(orders[orderId]);
      } else {
        found := None;
      }
    }

    /** Overwrites the record stored under the order's id and returns the
        order it was given. */
    method UpdateOrder(order: Order) returns (updated: Order)
      modifies this
      ensures orders == old(orders)[order.orderId := order.(orderLineItems := None)]
      ensures nextOrderId == old(nextOrderId)
      ensures updated == order
    {
      orders := orders[order.orderId := order.(orderLineItems := None)];
      updated := order;
    }

    /** Removes the record stored under the order's id and returns the order
        it was given. */
    method DeleteOrder(order: Order) returns (deleted: Order)
      modifies this
      ensures orders == old(orders) - {order.orderId}
      ensures nextOrderId == old(nextOrderId)
      ensures deleted == order
    {
      orders := orders - {order.orderId};
      deleted := order;
    }
  }

  class OrderLineItemRepository {
    /** The stored line items, by the id of their parent order, in creation order. */
    var lineItems: map<int, seq<OrderLineItem>>
    /** The id the next created line item receives. */
    var nextLineItemId: int

    constructor ()
      ensures lineItems == map[] && nextLineItemId == 1
    {
      lineItems := map[];
      nextLineItemId := 1;
    }

    /** Stores the line item, with a fresh line-item id, after the items
        already held for its order, and returns the stored item. */
    method CreateOrderLineItem(lineItem: OrderLineItem) returns (created: OrderLineItem)
      modifies this
      ensures created == lineItem.(orderLineItemId := old(nextLineItemId))
      ensures lineItems == old(lineItems)[lineItem.orderId := ItemsOf(old(lineItems), lineItem.orderId) + [created]]
      ensures nextLineItemId == old(nextLineItemId) + 1
    {
      created := lineItem.(orderLineItemId := nextLineItemId);
      lineItems := lineItems[lineItem.orderId := ItemsOf(lineItems, lineItem.orderId) + [created]];
      nextLineItemId := nextLineItemId + 1;
    }

    method GetOrderLineItems(orderId: int) returns (items: seq<OrderLineItem>)
      ensures items == ItemsOf(lineItems, orderId)
    {
      items := ItemsOf(lineItems, orderId);
    }

    /** Removes every line item of the order and returns what was removed. */
    method DeleteAllLineItemsInOrder(orderId: int) returns (deleted: seq<OrderLineItem>)
      modifies this
      ensures deleted == ItemsOf(old(lineItems), orderId)
      ensures lineItems == old(lineItems) - {orderId}
      ensures nextLineItemId == old(nextLineItemId)
    {
      deleted := ItemsOf(lineItems, orderId);
      lineItems := lineItems - {orderId};
    }
  }
}
