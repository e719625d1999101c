/** A reference model of the order service over the contents of both stores,
    as pure functions, and the properties of the service proved about it. */
module OrderSpec {
  import opened OrderModels

  /** Both stores and the repositories' id counters. */
  datatype Stores = Stores(
    orders: map<int, Order>,
    lineItems: map<int, seq<OrderLineItem>>,
    nextOrderId: int,
    nextLineItemId: int)

  /** The outcome of a service call and the stores it leaves behind. */
  datatype Step = Step(result: Result<Order>, after: Stores)

  /** The integrity the service keeps between the stores: each order record
      sits under its own id, carries no line items and has an id below the
      counter; every line-item key is a stored order (no orphans); and each
      stored line item carries the id of the order it is filed under. */
  ghost predicate Consistent(s: Stores) {
    && (forall id :: id in s.orders ==>
          s.orders[id].orderId == id && s.orders[id].orderLineItems == None && id < s.nextOrderId)
    && (forall id :: id in s.lineItems ==> id in s.orders)
    && (forall id, k :: id in s.lineItems && 0 <= k < |s.lineItems[id]| ==> s.lineItems[id][k].orderId == id)
  }

  /** The line items with their parent id set to orderId, in their order. */
  function Stamped(items: seq<OrderLineItem>, orderId: int): (stamped: seq<OrderLineItem>)
    ensures |stamped| == |items|
    ensures forall k :: 0 <= k < |items| ==> stamped[k] == items[k].(orderId := orderId)
  {
    if items == [] then [] else [items[0].(orderId := orderId)] + Stamped(items[1..], orderId)
  }

  /** The line items as the line-item store returns them when they are
      created one after another: the k-th receives line-item id firstId + k. */
  function Numbered(items: seq<OrderLineItem>, firstId: int): (numbered: seq<OrderLineItem>)
    ensures |numbered| == |items|
    ensures forall k :: 0 <= k < |items| ==> numbered[k] == items[k].(orderLineItemId := firstId + k)
  {
    if items == [] then [] else [items[0].(orderLineItemId := firstId)] + Numbered(items[1..], firstId + 1)
  }

  /** GetOrder: the stored record with its line items attached, or None for
      an unknown id. */
  function Get(s: Stores, orderId: int): (found: Option<Order>)
    requires Consistent(s)
    ensures found.None? <==> orderId !in s.orders
    ensures found.Some? ==> found.value.orderId == orderId
    ensures found.Some? ==>
      found.value == s.orders[orderId].(orderLineItems := Some(ItemsOf(s.lineItems, orderId)))
  {
    if orderId !in s.orders then None
    else
      var record := s.orders[orderId];
      Some(record.(orderLineItems := Some(ItemsOf(s.lineItems, record.orderId))))
  }

  /** CreateOrder: rejects an order without line items and changes nothing;
      otherwise stores the bare order under a fresh id and its line items,
      stamped with that id and numbered by the line-item store, under it. */
  function Create(s: Stores, order: Order): (step: Step)
    requires Consistent(s)
    ensures Consistent(step.after)
    ensures !HasLineItems(order) ==> step == Step(InvalidRequest(NoLineItems), s)
    ensures HasLineItems(order) ==>
      var id := s.nextOrderId;
      var input := order.orderLineItems.value;
      && id !in s.orders
      && step.result.Ok?
      && step.result.value.orderId == id
      && step.result.value.orderLineItems.Some?
      && step.result.value == order.(orderId := id, orderLineItems := step.result.value.orderLineItems)
      && var items := step.result.value.orderLineItems.value;
      && |items| == |input|
      && (forall k :: 0 <= k < |items| ==>
            items[k] == input[k].(orderId := id, orderLineItemId := s.nextLineItemId + k))
      && step.after.orders == s.orders[id := order.(orderId := id, orderLineItems := None)]
      && step.after.lineItems == s.lineItems[id := items]
      && step.after.nextOrderId == id + 1
      && step.after.nextLineItemId == s.nextLineItemId + |items|
  {
    if !HasLineItems(order) then Step(InvalidRequest(NoLineItems), s)
    else
      var created := order.(orderId := s.nextOrderId, orderLineItems := None);
      var items := Numbered(Stamped(order.orderLineItems.value, created.orderId), s.nextLineItemId);
      assert created.orderId !in s.lineItems;
      assert ItemsOf(s.lineItems, created.orderId) + items == items;
      Step(Ok(created.(orderLineItems := Some(items))),
           Stores(s.orders[created.orderId := created],
                  s.lineItems[created.orderId := ItemsOf(s.lineItems, created.orderId) + items],
                  s.nextOrderId + 1,
                  s.nextLineItemId + |items|))
  }

  /** CancelOrder: rejects an unknown id, then an order already Cancelled,
      changing nothing; otherwise sets the stored status to Cancelled and
      returns the built-up order with that status. */
  function Cancel(s: Stores, orderId: int): (step: Step)
    requires Consistent(s)
    ensures Consistent(step.after)
    ensures orderId !in s.orders ==> step == Step(InvalidRequest(NoOrderToCancel), s)
    ensures orderId in s.orders && s.orders[orderId].orderStatus == Cancelled ==>
      step == Step(InvalidRequest(AlreadyCancelled), s)
    ensures orderId in s.orders && s.orders[orderId].orderStatus != Cancelled ==>
      && step.result == Ok(Get(s, orderId).value.(orderStatus := Cancelled))
      && step.after == s.(orders := s.orders[orderId := s.orders[orderId].(orderStatus := Cancelled)])
  {
    match Get(s, orderId)
    case None => Step(InvalidRequest(NoOrderToCancel), s)
    case Some(order) =>
      if order.orderStatus == Cancelled then Step(InvalidRequest(AlreadyCancelled), s)
      else
        var cancelled := order.(orderStatus := Cancelled);
        Step(Ok(cancelled), s.(orders := s.orders[cancelled.orderId := cancelled.(orderLineItems := None)]))
  }

  /** The stores once the line items of an order are deleted: the first half
      of DeleteOrder. */
  function WithoutLineItems(s: Stores, orderId: int): (t: Stores)
    ensures t.orders == s.orders
    ensures t.nextOrderId == s.nextOrderId && t.nextLineItemId == s.nextLineItemId
    ensures ItemsOf(t.lineItems, orderId) == []
    ensures forall other :: other != orderId ==> ItemsOf(t.lineItems, other) == ItemsOf(s.lineItems, other)
  {
    s.(lineItems := s.lineItems - {orderId})
  }

  /** DeleteOrder: rejects an unknown id and changes nothing; otherwise
      removes the order's line items, then the order, and returns the
      order as it was before deletion. */
  function Delete(s: Stores, orderId: int): (step: Step)
    requires Consistent(s)
    ensures Consistent(step.after)
    ensures orderId !in s.orders ==> step == Step(InvalidRequest(NoOrderToDelete), s)
    ensures orderId in s.orders ==>
      && step.result == Ok(Get(s, orderId).value)
      && step.result.value.orderId == orderId
      && step.after == s.(orders := s.orders - {orderId}, lineItems := s.lineItems - {orderId})
  {
    match Get(s, orderId)
    case None => Step(InvalidRequest(NoOrderToDelete), s)
    case Some(order) =>
      var children := WithoutLineItems(s, orderId);
      Step(Ok(order), children.(orders := children.orders - {order.orderId}))
  }

  /** A state-changing request to the service. */
  datatype Request = CreateRequest(order: Order) | CancelRequest(orderId: int) | DeleteRequest(orderId: int)

  function Apply(s: Stores, request: Request): (step: Step)
    requires Consistent(s)
    ensures Consistent(step.after)
    ensures step.after.nextOrderId >= s.nextOrderId
  {
    match request
    case CreateRequest(order) => Create(s, order)
    case CancelRequest(orderId) => Cancel(s, orderId)
    case DeleteRequest(orderId) => Delete(s, orderId)
  }

  /** The stores after serving the requests one after another. */
  function Run(s: Stores, requests: seq<Request>): (t: Stores)
    requires Consistent(s)
    ensures Consistent(t)
    ensures t.nextOrderId >= s.nextOrderId
    decreases |requests|
  {
    if requests == [] then s else Run(Apply(s, requests[0]).after, requests[1..])
  }

  /** The order id that a request creates, cancels or deletes. */
  function Target(s: Stores, request: Request): int {
    match request
    case CreateRequest(_) => s.nextOrderId
    case CancelRequest(orderId) => orderId
    case DeleteRequest(orderId) => orderId
  }

  // ---------------------------------------------------------------------
  // Properties relating several calls

  /** A second cancel of the same id is always rejected. */
  lemma CancelTwiceFails(s: Stores, orderId: int)
    requires Consistent(s)
    ensures Cancel(Cancel(s, orderId).after, orderId).result.InvalidRequest?
    ensures Cancel(s, orderId).result.Ok? ==>
      Cancel(Cancel(s, orderId).after, orderId).result == InvalidRequest(AlreadyCancelled)
  {
  }

  /** An order created as the web layer creates it, Pending, can be cancelled. */
  lemma CreatedPendingOrderCanBeCancelled(s: Stores, order: Order)
    requires Consistent(s) && HasLineItems(order) && order.orderStatus == Pending
    ensures var created := Create(s, order);
      Cancel(created.after, created.result.value.orderId).result.Ok?
  {
  }

  /** Fetching a newly created order gives back exactly what CreateOrder returned. */
  lemma CreateThenGet(s: Stores, order: Order)
    requires Consistent(s) && HasLineItems(order)
    ensures var created := Create(s, order);
      Get(created.after, created.result.value.orderId) == Some(created.result.value)
  {
  }

  /** Fetching a cancelled order shows status Cancelled with all else as before. */
  lemma CancelThenGet(s: Stores, orderId: int)
    requires Consistent(s)
    requires Cancel(s, orderId).result.Ok?
    ensures Get(Cancel(s, orderId).after, orderId) ==
      Some(Get(s, orderId).value.(orderStatus := Cancelled))
  {
  }

  /** A deleted order can no longer be fetched, and its line items are gone. */
  lemma DeleteThenGet(s: Stores, orderId: int)
    requires Consistent(s)
    requires Delete(s, orderId).result.Ok?
    ensures Get(Delete(s, orderId).after, orderId) == None
    ensures ItemsOf(Delete(s, orderId).after.lineItems, orderId) == []
  {
  }

  /** A request changes no order but its target: every other order reads back
      as before, line items included. */
  lemma OnlyTargetChanges(s: Stores, request: Request, other: int)
    requires Consistent(s)
    requires other != Target(s, request)
    ensures Get(Apply(s, request).after, other) == Get(s, other)
  {
  }

  /** Deleting the line items first keeps the stores consistent in between. */
  lemma ChildrenFirstKeepsIntegrity(s: Stores, orderId: int)
    requires Consistent(s)
    ensures Consistent(WithoutLineItems(s, orderId))
  {
  }

  /** Deleting the parent first would leave its line items orphaned. */
  lemma ParentFirstOrphansLineItems(s: Stores, orderId: int)
    requires Consistent(s) && orderId in s.lineItems
    ensures !Consistent(s.(orders := s.orders - {orderId}))
  {
  }

  /** The order id has been handed out, and if it is still stored it is Cancelled. */
  ghost predicate Retired(s: Stores, orderId: int) {
    orderId < s.nextOrderId && (orderId in s.orders ==> s.orders[orderId].orderStatus == Cancelled)
  }

  lemma ApplyKeepsRetired(s: Stores, request: Request, orderId: int)
    requires Consistent(s) && Retired(s, orderId)
    ensures Retired(Apply(s, request).after, orderId)
  {
  }

  lemma {:induction false} RunKeepsRetired(s: Stores, requests: seq<Request>, orderId: int)
    requires Consistent(s) && Retired(s, orderId)
    ensures Retired(Run(s, requests), orderId)
    decreases |requests|
  {
    if requests != [] {
      ApplyKeepsRetired(s, requests[0], orderId);
      RunKeepsRetired(Apply(s, requests[0]).after, requests[1..], orderId);
    }
  }

  /** Cancelled is terminal: whatever requests follow, a cancelled order is
      either still Cancelled or deleted, its id is never reused, and a
      further cancel of it is rejected. */
  lemma CancelledIsTerminal(s: Stores, requests: seq<Request>, orderId: int)
    requires Consistent(s)
    requires orderId in s.orders && s.orders[orderId].orderStatus == Cancelled
    ensures var t := Run(s, requests);
      && (orderId in t.orders ==> t.orders[orderId].orderStatus == Cancelled)
      && Cancel(t, orderId).result.InvalidRequest?
  {
    RunKeepsRetired(s, requests, orderId);
  }
}
