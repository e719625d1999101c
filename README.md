# OrderService, modelled in Dafny

This project models the `OrderService` component of OrderServiceDemo, a small
order-management web API. The service validates requests and keeps two stores
in step with each other:

- the order store, mapping an order id to an `Order` (status, user, purchase
  time);
- the line-item store, mapping an order id to the sequence of that order's
  `OrderLineItem`s.

It has four operations. `CreateOrder` rejects an order without line items.
Otherwise it stores the order, stamps each line item with the new order id,
stores the line items and returns the order with them attached. `GetOrder`
fetches an order and attaches its line items; an unknown id gives an absent
result. `CancelOrder` moves an order to `Cancelled`. It rejects an unknown id
first and an order already cancelled second. `DeleteOrder` rejects an unknown
id. Otherwise it deletes the order's line items, then the order itself.

## Layout

- `order_models.dfy`, module `OrderModels`: the entities (`Order`,
  `OrderLineItem`, `OrderStatus`), `Option`, and the `Result` datatype whose
  `InvalidRequest` variant stands for `InvalidRequestException`. The variant is
  tagged with the rule that failed.
- `repositories.dfy`, module `Repositories`: classes `OrderRepository` and
  `OrderLineItemRepository`. These stand in for the injected repository
  interfaces, whose code is not part of this model. Each holds a `map` field
  and an id counter.
- `order_spec.dfy`, module `OrderSpec`: a reference model of the service as
  pure functions over `Stores`, a value holding the contents of both stores.
  It contains the integrity invariant `Consistent`, request traces (`Apply`,
  `Run`) and the lemmas relating several calls.
- `order_service.dfy`, module `OrderServices`: class `OrderService`. It holds
  the two repositories, and its methods change their maps step by step as the
  source does. Each method's `ensures` ties the result and the new contents of
  both stores to the matching `OrderSpec` function of the old contents, and
  keeps `Valid()`.
- `order_scenarios.dfy`, module `OrderScenarios`: client methods modelled on
  the repository's unit tests. They run against real in-memory stores rather
  than mocks, so some are stronger than the test they follow. They are proved
  from the class contracts alone.

### Repository behaviour assumed

The repository implementations are not part of this model.
`Repositories` fixes the behaviour the service relies on:

- `OrderRepository.CreateOrder` stores the order under the next value of a
  counter that starts at 1. It returns the stored record, which carries no line
  items.
- `UpdateOrder` overwrites the record under the order's id.
- `DeleteOrder` removes it.
- `UpdateOrder` and `DeleteOrder` both return the order they were given, as
  the unit tests' mocks do.
- `OrderLineItemRepository.CreateOrderLineItem` gives the item the next
  line-item id from its own counter. It appends the item under its `orderId`
  and returns the stored item.
- `GetOrderLineItems` returns the sequence stored for an id, or `[]` when
  there is none.
- `DeleteAllLineItemsInOrder` removes that key.

`OrderSpec.Consistent` is the invariant the service keeps across both stores:

- each order record sits under its own id, carries no line items, and has an
  id below the counter;
- every line-item key is a stored order, so no line item is orphaned;
- every stored line item carries the id of the order it is filed under.

The `OrderService` constructor requires the stores it is given to be
consistent.

### Modelling choices

- `OrderStatus` has a third constructor, `OtherStatus`, for enumeration values
  this core does not name. `CancelOrder` only tests for `Cancelled`, so an order
  in any other status can be cancelled, not only a `Pending` one.
- `CancelOrder` and `DeleteOrder` return whatever the order repository's
  `UpdateOrder` or `DeleteOrder` returns (OrderService.cs:63, :76). Under
  the repository behaviour assumed above, `DeleteOrder` therefore returns the
  built-up order as fetched before the deletion.

## Model

| member | source | states |
|---|---|---|
| `OrderSpec.Stamped` | src/OrderServiceDemo.Services/Components/OrderService.cs:31-34 | same length as the input; item k is input item k with `orderId` set to the new id and nothing else changed |
| `OrderSpec.Numbered` | src/OrderServiceDemo.Services/Components/OrderService.cs:36 | creating the items one after another keeps count and order; item k is input item k with line-item id `firstId + k` |
| `OrderSpec.Get` | src/OrderServiceDemo.Services/Components/OrderService.cs:41-46 | absent exactly when the id is not stored; otherwise the stored order, with the requested id and with `orderLineItems` equal to the line-item store's entries for that id |
| `OrderSpec.Create` | src/OrderServiceDemo.Services/Components/OrderService.cs:24-39 | without line items: `InvalidRequest(NoLineItems)` and both stores unchanged. Otherwise: the new id is fresh; the result is the input order with that id; its line items match the input in count and order, each with `orderId` = new id; the order store gains exactly the bare order, the line-item store gains exactly those items under the new id; integrity is kept |
| `OrderSpec.Cancel` | src/OrderServiceDemo.Services/Components/OrderService.cs:48-65 | unknown id: `InvalidRequest(NoOrderToCancel)`; already `Cancelled`: `InvalidRequest(AlreadyCancelled)`. Existence is checked first, and both failures leave the stores unchanged. Otherwise: only that order's stored status changes, to `Cancelled`; the result is the built-up order with status `Cancelled`; integrity is kept |
| `OrderSpec.Delete` | src/OrderServiceDemo.Services/Components/OrderService.cs:67-78 | unknown id: `InvalidRequest(NoOrderToDelete)` and both stores unchanged. Otherwise: exactly that order and its line-item entry are removed; the result is the order as fetched before deletion and carries the requested id; integrity is kept |
| `OrderSpec.CancelTwiceFails` | tests/OrderServiceDemo.Unit.Tests/Services/OrderServiceTests.cs:94-106 | a second cancel of the same id is always rejected, with `AlreadyCancelled` when the first one succeeded |
| `OrderSpec.CreatedPendingOrderCanBeCancelled` | src/OrderServiceDemo/Controllers/OrderController.cs:32-42 | an order the web layer creates (status `Pending`, at least one line item) can then be cancelled |
| `OrderSpec.CreateThenGet` | src/OrderServiceDemo.Services/Components/OrderService.cs:36-38 | fetching a newly created order gives back exactly what `CreateOrder` returned, line items included |
| `OrderSpec.CancelThenGet` | src/OrderServiceDemo.Services/Components/OrderService.cs:58-64 | after a successful cancel, fetching the order gives the previous fetch with status `Cancelled` and nothing else changed |
| `OrderSpec.DeleteThenGet` | src/OrderServiceDemo.Services/Components/OrderService.cs:74-77 | after a successful delete, the order can no longer be fetched and no line items remain under its id |
| `OrderSpec.OnlyTargetChanges` | src/OrderServiceDemo.Services/Components/OrderService.cs:24-76 | a create, cancel or delete leaves every order other than its target reading back exactly as before, line items included |
| `OrderSpec.WithoutLineItems` | src/OrderServiceDemo.Services/Components/OrderService.cs:75 | the first half of a delete: the order store and both counters are unchanged, no line items remain under the order id, and every other order's line items are as before |
| `OrderSpec.ChildrenFirstKeepsIntegrity` | src/OrderServiceDemo.Services/Components/OrderService.cs:74-76 | deleting an order's line items first leaves the stores consistent in the intermediate state |
| `OrderSpec.ParentFirstOrphansLineItems` | src/OrderServiceDemo.Services/Components/OrderService.cs:74-76 | deleting the parent first would leave its line items orphaned, so the stores would not be consistent |
| `OrderSpec.ApplyKeepsRetired` | src/OrderServiceDemo.Services/Components/OrderService.cs:54-58 | every request keeps a cancelled or deleted order id retired: the id is not reused, and if still stored the order is `Cancelled` |
| `OrderSpec.RunKeepsRetired` | src/OrderServiceDemo.Services/Components/OrderService.cs:54-58 | any sequence of requests keeps a retired order id retired (by induction over the sequence) |
| `OrderSpec.CancelledIsTerminal` | src/OrderServiceDemo.Services/Components/OrderService.cs:54-58 | after any sequence of requests, a cancelled order is either deleted or still `Cancelled`, and cancelling it again is rejected |
| `OrderServices.OrderService.constructor` | src/OrderServiceDemo.Services/Components/OrderService.cs:16-22 | the service holds the two repositories it is given, and starts valid |
| `OrderServices.OrderService.CreateOrder` | src/OrderServiceDemo.Services/Components/OrderService.cs:24-39 | the result and the new store contents are those `OrderSpec.Create` gives for the old contents; keeps `Valid()` |
| `OrderServices.OrderService.StampOrderId` | src/OrderServiceDemo.Services/Components/OrderService.cs:31-34 | the in-place loop yields `OrderSpec.Stamped` of its input: every parent id set, all else and the order kept |
| `OrderServices.OrderService.CreateLineItems` | src/OrderServiceDemo.Services/Components/OrderService.cs:36 | the sequential loop returns `OrderSpec.Numbered` of its input, in input order, and appends exactly those items under the order id in the line-item store |
| `OrderServices.OrderService.GetOrder` | src/OrderServiceDemo.Services/Components/OrderService.cs:41-46 | returns `OrderSpec.Get` of the current contents and changes nothing |
| `OrderServices.OrderService.BuildUpOrder` | src/OrderServiceDemo.Services/Components/OrderService.cs:80-88 | an absent order stays absent; a present one keeps every field except `orderLineItems`, which becomes the line-item store's entries for its id |
| `OrderServices.OrderService.CancelOrder` | src/OrderServiceDemo.Services/Components/OrderService.cs:48-65 | the result and the new store contents are those `OrderSpec.Cancel` gives; the line-item store is not modified; keeps `Valid()` |
| `OrderServices.OrderService.DeleteOrder` | src/OrderServiceDemo.Services/Components/OrderService.cs:67-78 | the result and the new store contents are those `OrderSpec.Delete` gives; keeps `Valid()`; its body proves the stores consistent after the line items are deleted and before the order is |
| `OrderScenarios.CreateWithoutLineItems` | tests/OrderServiceDemo.Unit.Tests/Services/OrderServiceTests.cs:23-32 | an order whose line-item list is absent, or empty, is rejected with `NoLineItems` |
| `OrderScenarios.DeleteUnknownOrder` | tests/OrderServiceDemo.Unit.Tests/Services/OrderServiceTests.cs:34-42 | deleting id 1 on empty stores is rejected with `NoOrderToDelete` |
| `OrderScenarios.DeleteWithThreeLineItems` | tests/OrderServiceDemo.Unit.Tests/Services/OrderServiceTests.cs:44-62 | stronger than the test, which deletes a bare order 1 with no line items and checks only the returned id: deleting order 1, which has three line items, returns order 1 with its three items; afterwards neither the order nor any of its items can be fetched |
| `OrderScenarios.CancelPendingOrder` | tests/OrderServiceDemo.Unit.Tests/Services/OrderServiceTests.cs:64-80 | cancelling a `Pending` order returns it `Cancelled`, and the stored order then reads back `Cancelled` |
| `OrderScenarios.CancelUnknownOrder` | tests/OrderServiceDemo.Unit.Tests/Services/OrderServiceTests.cs:82-92 | cancelling id 1 on empty stores is rejected with `NoOrderToCancel` |
| `OrderScenarios.CancelTwice` | tests/OrderServiceDemo.Unit.Tests/Services/OrderServiceTests.cs:94-106 | stronger than the test, which makes one cancel call on an order set up as `Cancelled`: here the order reaches `Cancelled` through a first, successful cancel, and the second cancel is rejected with `AlreadyCancelled` |
| `OrderScenarios.CreateWithTwoLineItems` | src/OrderServiceDemo.Services/Components/OrderService.cs:29-38 | creating an order with two line items returns both, in input order, each carrying the new order id; fetching the order gives the same value |

## Left out

- The web layer (OrderController.cs): HTTP routing, DTO mapping and turning
  `InvalidRequestException` into a 400 response. Only one fact from it is
  used: new orders are `Pending`. That fact appears as a hypothesis of
  `CreatedPendingOrderCanBeCancelled`. The `DateTime.Now` timestamp is not
  modelled; `purchasedOn` is an opaque integer the service passes through.
- The concurrency of `Task.WhenAll`: the line items are created one after
  another, in input order. That is the order `Task.WhenAll` gives its results.
- The repository implementations and their persistence. They are replaced by
  the in-memory classes described above. Repository failures are left out,
  and so are the partial states they would leave behind: the service does not
  wrap its multi-step writes in a transaction.
- Aliasing of mutable C# objects. `CreateOrder` stamps the caller's own
  line-item objects in place, and `BuildUpOrder` and `CancelOrder` mutate the
  fetched order object. The model works on values: it returns stamped copies,
  and the caller's `Order` value is unchanged. The unit test at
  OrderServiceTests.cs:79 observes the status through such an alias; the
  model states the property on the stored order instead.
- Error message strings. A `Rejection` tag names the failed rule instead.
- Integer width: order and line-item ids are unbounded integers, so the
  32-bit overflow of the id counters is not modelled.
- The repository id counters. Ids come from counters starting at 1; the real
  store's identity scheme is not part of this model.
