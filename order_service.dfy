/** The order service: four operations over the order store and the
    line-item store, each proved against the reference model in OrderSpec. */
module OrderServices {
  import opened OrderModels
  import opened Repositories
  import opened OrderSpec

  class OrderService {
    const orderRepository: OrderRepository
    const orderLineItemRepository: OrderLineItemRepository

    /** The contents of both stores. */
    function State(): Stores
      reads orderRepository, orderLineItemRepository
    {
      Stores(orderRepository.orders, orderLineItemRepository.lineItems,
             orderRepository.nextOrderId, orderLineItemRepository.nextLineItemId)
    }

    ghost predicate Valid()
      reads orderRepository, orderLineItemRepository
    {
      Consistent(State())
    }

    /** The service is handed its two repositories, whose contents are
        consistent with each other. */
    constructor (orderRepository: OrderRepository, orderLineItemRepository: OrderLineItemRepository)
      requires Consistent(Stores(orderRepository.orders, orderLineItemRepository.lineItems,
                                 orderRepository.nextOrderId, orderLineItemRepository.nextLineItemId))
      ensures this.orderRepository == orderRepository
      ensures this.orderLineItemRepository == orderLineItemRepository
      ensures Valid()
    {
      this.orderRepository := orderRepository;
      this.orderLineItemRepository := orderLineItemRepository;
    }

    /** Rejects an order without line items before touching either store;
        otherwise creates the order, stamps and creates its line items in
        input order, and returns the order with the created line items. */
    method CreateOrder(order: Order) returns (result: Result<Order>)
      requires Valid()
      modifies orderRepository, orderLineItemRepository
      ensures Valid()
      ensures Step(result, State()) == Create(old(State()), order)
    {
      if !HasLineItems(order) {
        return InvalidRequest(NoLineItems);
      }
      var createdOrder := orderRepository.CreateOrder(order);
      var lineItems := StampOrderId(order.orderLineItems.value, createdOrder.orderId);
      assert createdOrder.orderId !in orderLineItemRepository.lineItems;
      var created := CreateLineItems(lineItems, createdOrder.orderId);
      createdOrder := createdOrder.(orderLineItems := Some(created));
      result := Ok(createdOrder);
    }

    /** Creates the line items one after another, in input order, and returns
        what the line-item store gave back for each. */
    method CreateLineItems(lineItems: seq<OrderLineItem>, orderId: int) returns (created: seq<OrderLineItem>)
      requires forall k :: 0 <= k < |lineItems| ==> lineItems[k].orderId == orderId
      modifies orderLineItemRepository
      ensures created == Numbered(lineItems, old(orderLineItemRepository.nextLineItemId))
      ensures orderLineItemRepository.nextLineItemId == old(orderLineItemRepository.nextLineItemId) + |lineItems|
      ensures orderLineItemRepository.lineItems ==
        if lineItems == [] then old(orderLineItemRepository.lineItems)
        else old(orderLineItemRepository.lineItems)[orderId :=
               ItemsOf(old(orderLineItemRepository.lineItems), orderId) + created]
    {
      ghost var before := orderLineItemRepository.lineItems;
      ghost var firstId := orderLineItemRepository.nextLineItemId;
      created := [];
      for k := 0 to |lineItems|
        invariant |created| == k
        invariant forall j :: 0 <= j < k ==> created[j] == lineItems[j].(orderLineItemId := firstId + j)
        invariant orderLineItemRepository.nextLineItemId == firstId + k
        invariant orderLineItemRepository.lineItems ==
          if k == 0 then before else before[orderId := ItemsOf(before, orderId) + created]
      {
        assert ItemsOf(orderLineItemRepository.lineItems, orderId) == ItemsOf(before, orderId) + created;
        var lineItem := orderLineItemRepository.CreateOrderLineItem(lineItems[k]);
        assert ItemsOf(before, orderId) + created + [lineItem] == ItemsOf(before, orderId) + (created + [lineItem]);
        created := created + [lineItem];
      }
      assert created == Numbered(lineItems, firstId);
    }

    /** Sets the parent id of every line item, leaving the rest of each item
        and the order of the items as they were. */
    static method StampOrderId(lineItems: seq<OrderLineItem>, orderId: int) returns (stamped: seq<OrderLineItem>)
      ensures stamped == Stamped(lineItems, orderId)
    {
      stamped := lineItems;
      for k := 0 to |lineItems|
        invariant |stamped| == |lineItems|
        invariant forall j :: 0 <= j < k ==> stamped[j] == lineItems[j].(orderId := orderId)
        invariant forall j :: k <= j < |lineItems| ==> stamped[j] == lineItems[j]
      {
        stamped := stamped[k := stamped[k].(orderId := orderId)];
      }
    }

    /** The stored order with its line items, or None for an unknown id. */
    method GetOrder(orderId: int) returns (order: Option<Order>)
      requires Valid()
      ensures order == Get(State(), orderId)
    {
      var found := orderRepository.GetOrder(orderId);
      order := BuildUpOrder(found);
    }

    /** Attaches to a present order the line items stored for its id; an
        absent order stays absent and no line items are looked up. */
    method BuildUpOrder(order: Option<Order>) returns (built: Option<Order>)
      ensures order.None? ==> built == None
      ensures order.Some? ==>
        built == Some(order.value.(orderLineItems :=
                                   Some(ItemsOf(orderLineItemRepository.lineItems, order.value.orderId))))
    {
      if order.None? {
        return order;
      }
      var lineItems := orderLineItemRepository.GetOrderLineItems(order.value.orderId);
      built := Some(order.value.(orderLineItems := Some(lineItems)));
    }

    /** Rejects an unknown id, then an order already Cancelled; otherwise
        writes the order back with status Cancelled and returns it. */
    method CancelOrder(orderId: int) returns (result: Result<Order>)
      requires Valid()
      modifies orderRepository
      ensures Valid()
      ensures Step(result, State()) == Cancel(old(State()), orderId)
    {
      var order := GetOrder(orderId);
      if order.None? {
        return InvalidRequest(NoOrderToCancel);
      } else if order.value.orderStatus == Cancelled {
        return InvalidRequest(AlreadyCancelled);
      }
      var cancelled := order.value.(orderStatus := Cancelled);
      cancelled := orderRepository.UpdateOrder(cancelled);
      result := Ok(cancelled);
    }

    /** Rejects an unknown id; otherwise deletes the order's line items, then
        the order, and returns the order as fetched before deletion. */
    method DeleteOrder(orderId: int) returns (result: Result<Order>)
      requires Valid()
      modifies orderRepository, orderLineItemRepository
      ensures Valid()
      ensures Step(result, State()) == Delete(old(State()), orderId)
    {
      var order := GetOrder(orderId);
      if order.None? {
        return InvalidRequest(NoOrderToDelete);
      }
      var deletedLineItems := orderLineItemRepository.DeleteAllLineItemsInOrder(orderId);
      // With the children gone first, no line item refers to a missing order.
      assert State() == WithoutLineItems(old(State()), orderId);
      ChildrenFirstKeepsIntegrity(old(State()), orderId);
      var deleted := orderRepository.DeleteOrder(order.value);
      result := Ok(deleted);
    }
  }
}
