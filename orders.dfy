/** The order workflow: who may see, list, edit and take an order, and how
    an order is created, priced and announced. The read-only operations are
    functions of the repositories' contents; the operations that save are
    methods of `OrdersService`, whose publications are appended to a log. */
module Orders {
  import opened Common
  import opened UserEntity
  import opened RestaurantEntity
  import opened DishEntity
  import opened OrderEntity
  import opened Pricing
  import opened Checkout

  const RestaurantNotFound := "Restaurant not found"
  const DishNotFound := "Dish not found"
  const CannotCreateOrder := "Cannot create order"
  const OrderNotFound := "Order not found"
  const CannotSeeThat := "You cannot see that"
  const CannotGetOrder := "Cannot Get Order"
  /** `editOrder`'s answer for a missing order really does say "User". */
  const EditOrderNotFound := "User not found"
  const CantSeeThat := "You can't see that"
  const NotAllowed := "You are not allowed to do that"
  const CannotEditOrder := "Cannot Edit Order"
  const AlreadyHasDriver := "This order already has a driver"

  /** A publication on one of the three topics, with its payload. */
  datatype Event =
    | PendingOrders(order: Order, ownerId: Option<UserId>)
    | CookedOrders(order: Order)
    | OrderUpdates(order: Order)

  /** The order's restaurant relation as loaded with the order. */
  function LoadRestaurant(restaurants: map<RestaurantId, Restaurant>, order: Order): Option<Restaurant> {
    if order.restaurantId.Some? && order.restaurantId.value in restaurants
    then Some(restaurants[order.restaurantId.value])
    else None
  }

  /** The visibility check. Each role is held to its own identity field:
      the customer for a client, the driver for a driver, the restaurant's
      owner for an owner. `None` is the TypeError of reading `ownerId` through
      an order whose restaurant is gone, which only an owner's check does. */
  function CanSeeOrder(user: User, order: Order, restaurant: Option<Restaurant>): (r: Option<bool>)
    ensures r.None? <==> user.role == Owner && restaurant.None?
    ensures r == Some(true) <==>
      match user.role
      case Client => order.customerId == Some(user.id)
      case Delivery => order.driverId == Some(user.id)
      case Owner => restaurant.Some? && restaurant.value.ownerId == Some(user.id)
  {
    if user.role == Owner && restaurant.None? then None
    else Some(
      && !(user.role == Client && order.customerId != Some(user.id))
      && !(user.role == Delivery && order.driverId != Some(user.id))
      && !(user.role == Owner && restaurant.value.ownerId != Some(user.id)))
  }

  /** `getOrder`: the order, when it exists and the caller may see it. */
  function GetOrder(orders: map<OrderId, Order>, restaurants: map<RestaurantId, Restaurant>, user: User, id: OrderId): (r: Output<Order>)
    ensures r.Ok? <==> id in orders && CanSeeOrder(user, orders[id], LoadRestaurant(restaurants, orders[id])) == Some(true)
    ensures r.Ok? ==> r.value == orders[id]
    ensures id !in orders ==> r == Fail(OrderNotFound)
    ensures id in orders && CanSeeOrder(user, orders[id], LoadRestaurant(restaurants, orders[id])) == Some(false) ==> r == Fail(CannotSeeThat)
    ensures id in orders && CanSeeOrder(user, orders[id], LoadRestaurant(restaurants, orders[id])).None? ==> r == Fail(CannotGetOrder)
  {
    if id !in orders then Fail(OrderNotFound)
    else match CanSeeOrder(user, orders[id], LoadRestaurant(restaurants, orders[id]))
      case None => Fail(CannotGetOrder)
      case Some(false) => Fail(CannotSeeThat)
      case Some(true) => Ok(orders[id])
  }

  /** The optional status filter of the listing. */
  predicate StatusMatches(order: Order, status: Option<OrderStatus>) {
    status.None? || order.status == status.value
  }

  /** The order belongs to a restaurant that `user` owns. */
  predicate OwnedBy(restaurants: map<RestaurantId, Restaurant>, user: User, order: Order) {
    order.restaurantId.Some? && order.restaurantId.value in restaurants
    && restaurants[order.restaurantId.value].ownerId == Some(user.id)
  }

  /** `getOrders` as written: clients AND drivers get the orders whose
      customer they are; owners get the orders of all their restaurants. */
  function GetOrders(orders: map<OrderId, Order>, restaurants: map<RestaurantId, Restaurant>, user: User, status: Option<OrderStatus>): (r: map<OrderId, Order>)
    ensures forall k :: k in r ==> k in orders && r[k] == orders[k] && StatusMatches(r[k], status)
  {
    match user.role
    case Client =>
      map k | k in orders && orders[k].customerId == Some(user.id) && StatusMatches(orders[k], status) :: orders[k]
    case Delivery =>
      map k | k in orders && orders[k].customerId == Some(user.id) && StatusMatches(orders[k], status) :: orders[k]
    case Owner =>
      map k | k in orders && OwnedBy(restaurants, user, orders[k]) && StatusMatches(orders[k], status) :: orders[k]
  }

  /** The listing as evidently intended: drivers get the orders they drive.
      It then lists exactly the orders `getOrder` would show the caller. */
  function VisibleOrders(orders: map<OrderId, Order>, restaurants: map<RestaurantId, Restaurant>, user: User, status: Option<OrderStatus>): (r: map<OrderId, Order>)
    ensures forall k :: k in r <==> k in orders && GetOrder(orders, restaurants, user, k).Ok? && StatusMatches(orders[k], status)
    ensures forall k :: k in r ==> r[k] == orders[k]
  {
    match user.role
    case Client =>
      map k | k in orders && orders[k].customerId == Some(user.id) && StatusMatches(orders[k], status) :: orders[k]
    case Delivery =>
      map k | k in orders && orders[k].driverId == Some(user.id) && StatusMatches(orders[k], status) :: orders[k]
    case Owner =>
      map k | k in orders && OwnedBy(restaurants, user, orders[k]) && StatusMatches(orders[k], status) :: orders[k]
  }

  /** A driver's listing is the listing a client with the same id gets. */
  lemma DriverListingIsCustomerListing(orders: map<OrderId, Order>, restaurants: map<RestaurantId, Restaurant>, driver: User, status: Option<OrderStatus>)
    requires driver.role == Delivery
    ensures GetOrders(orders, restaurants, driver, status) == GetOrders(orders, restaurants, driver.(role := Client), status)
  {
  }

  /** For clients and owners the listing as written is the intended one. */
  lemma ListingCorrectExceptForDrivers(orders: map<OrderId, Order>, restaurants: map<RestaurantId, Restaurant>, user: User, status: Option<OrderStatus>)
    requires user.role != Delivery
    ensures GetOrders(orders, restaurants, user, status) == VisibleOrders(orders, restaurants, user, status)
  {
  }

  /** A driver's listing misses an order assigned to them that `getOrder` shows them. */
  lemma DriverListingMissesAssignedOrder(orders: map<OrderId, Order>, restaurants: map<RestaurantId, Restaurant>, driver: User, k: OrderId)
    requires driver.role == Delivery && k in orders
    requires orders[k].driverId == Some(driver.id) && orders[k].customerId != Some(driver.id)
    ensures GetOrder(orders, restaurants, driver, k) == Ok(orders[k])
    ensures k !in GetOrders(orders, restaurants, driver, None)
    ensures k in VisibleOrders(orders, restaurants, driver, None)
  {
  }

  /** A driver's listing holds an order that `getOrder` refuses to show them. */
  lemma DriverListingShowsForeignOrder(orders: map<OrderId, Order>, restaurants: map<RestaurantId, Restaurant>, driver: User, k: OrderId)
    requires driver.role == Delivery && k in orders
    requires orders[k].customerId == Some(driver.id) && orders[k].driverId != Some(driver.id)
    ensures GetOrder(orders, restaurants, driver, k) == Fail(CannotSeeThat)
    ensures k in GetOrders(orders, restaurants, driver, None)
    ensures k !in VisibleOrders(orders, restaurants, driver, None)
  {
  }

  /** An owner asking for an order of another owner's restaurant is refused. */
  lemma OtherOwnersOrderHidden(orders: map<OrderId, Order>, restaurants: map<RestaurantId, Restaurant>, owner: User, k: OrderId)
    requires owner.role == Owner && k in orders
    requires orders[k].restaurantId.Some? && orders[k].restaurantId.value in restaurants
    requires restaurants[orders[k].restaurantId.value].ownerId != Some(owner.id)
    ensures GetOrder(orders, restaurants, owner, k) == Fail(CannotSeeThat)
  {
  }

  /** The status-edit matrix: a client may set nothing, an owner Cooking or
      Cooked, a driver PickedUp or Delivered. It is exactly the ownership the
      order entity documents, and it does not look at the current status. */
  function MayEdit(role: UserRole, status: OrderStatus): bool {
    && role != Client
    && !(role == Owner && status != Cooking && status != Cooked)
    && !(role == Delivery && status != PickedUp && status != Delivered)
  }

  /** A role may set a status exactly when the order entity documents that
      role as the one who moves orders into it; nobody may set Pending. */
  lemma EditMatrixIsDocumentedOwnership(role: UserRole, status: OrderStatus)
    ensures MayEdit(role, status) <==> Setter(status) == Some(role)
  {
    match status
    case Pending =>
    case Cooking =>
    case Cooked =>
    case PickedUp =>
    case Delivered =>
  }

  /** The ids `n` consecutive saves receive from the store's counter. */
  function IdRange(start: nat, n: nat): seq<nat> {
    seq(n, j => start + j)
  }

  /** Items saved one after another, keyed by the ids they received. */
  function Numbered(start: nat, items: seq<OrderItem>): map<OrderItemId, OrderItem>
    decreases |items|
  {
    if items == [] then map[]
    else Numbered(start, items[..|items| - 1])[start + |items| - 1 := items[|items| - 1]]
  }

  /** The numbered block holds exactly the ids `start` to
      `start + |items| - 1`, each with its item. */
  lemma {:induction false} NumberedBlock(start: nat, items: seq<OrderItem>)
    ensures forall k :: k in Numbered(start, items) <==> start <= k < start + |items|
    ensures forall k :: k in Numbered(start, items) ==> Numbered(start, items)[k] == items[k - start]
    decreases |items|
  {
    if items != [] {
      var prefix := items[..|items| - 1];
      NumberedBlock(start, prefix);
    }
  }

  /** One more saved item takes the next id. */
  lemma IdRangeGrows(start: nat, n: nat)
    ensures IdRange(start, n + 1) == IdRange(start, n) + [start + n]
  {
    assert forall j :: 0 <= j < n ==> IdRange(start, n + 1)[j] == IdRange(start, n)[j];
  }

  /** Saving item `i` of the request under the next id extends the saved
      block by that item. */
  lemma SavedItemsGrow(before: map<OrderItemId, OrderItem>, start: nat, items: seq<OrderItem>, i: nat)
    requires i < |items|
    ensures (before + Numbered(start, items[..i]))[start + i := items[i]] == before + Numbered(start, items[..i + 1])
  {
    assert items[..i + 1][..i] == items[..i];
  }

  class OrdersService {
    var orders: map<OrderId, Order>
    var orderItems: map<OrderItemId, OrderItem>
    var restaurants: map<RestaurantId, Restaurant>
    var dishes: map<DishId, Dish>
    var nextOrderId: OrderId
    var nextItemId: OrderItemId
    /** Everything published so far, oldest first. */
    ghost var published: seq<Event>

    /** Orders are keyed by their id; the counters are past every key in
        use; every order's items are saved. */
    ghost predicate Valid()
      reads this
    {
      && (forall k :: k in orders ==> orders[k].id == k && k < nextOrderId)
      && (forall k :: k in orderItems ==> k < nextItemId)
      && (forall k, j :: k in orders && 0 <= j < |orders[k].items| ==> orders[k].items[j] in orderItems)
    }

    /** A service over a restaurant and dish catalogue, with no orders yet. */
    constructor (restaurants: map<RestaurantId, Restaurant>, dishes: map<DishId, Dish>)
      ensures Valid()
      ensures this.restaurants == restaurants && this.dishes == dishes
      ensures orders == map[] && orderItems == map[] && published == []
    {
      this.restaurants := restaurants;
      this.dishes := dishes;
      orders := map[];
      orderItems := map[];
      nextOrderId := 1;
      nextItemId := 1;
      published := [];
    }

    /** `createOrder`. A missing restaurant fails before anything is saved.
        Otherwise the items are priced and saved one by one; a missing dish
        or a throwing selection stops the run with the earlier items saved
        and no order. A complete run saves one Pending order carrying the
        summed total and the saved items, and announces it to the
        restaurant's owner. */
    method CreateOrder(customer: User, restaurantId: RestaurantId, items: seq<OrderItem>) returns (r: Output<OrderId>)
      requires Valid()
      modifies this
      ensures Valid()
      ensures restaurants == old(restaurants) && dishes == old(dishes)
      ensures restaurantId !in restaurants ==>
        && r == Fail(RestaurantNotFound)
        && orders == old(orders) && orderItems == old(orderItems) && published == old(published)
        && nextOrderId == old(nextOrderId) && nextItemId == old(nextItemId)
      ensures restaurantId in restaurants ==>
        var p := Walk(dishes, items);
        && orderItems == old(orderItems) + Numbered(old(nextItemId), p.saved)
        && nextItemId == old(nextItemId) + |p.saved|
        && (p.stop == DishMissing ==> r == Fail(DishNotFound))
        && (p.stop == Threw ==> r == Fail(CannotCreateOrder))
        && (p.stop != Completed ==>
              orders == old(orders) && nextOrderId == old(nextOrderId) && published == old(published))
        && (p.stop == Completed ==>
              var order := Order(old(nextOrderId), Some(customer.id), None, Some(restaurantId),
                                 IdRange(old(nextItemId), |items|), Some(p.total), Pending);
              && r == Ok(order.id)
              && orders == old(orders)[order.id := order]
              && nextOrderId == old(nextOrderId) + 1
              && published == old(published) + [PendingOrders(order, restaurants[restaurantId].ownerId)])
      ensures r.Ok? ==> r.value !in old(orders) && r.value in orders
      ensures r.Ok? && customer.role == Client ==>
        CanSeeOrder(customer, orders[r.value], LoadRestaurant(restaurants, orders[r.value])) == Some(true)
    {
      if restaurantId !in restaurants {
        return Fail(RestaurantNotFound);
      }
      var restaurant := restaurants[restaurantId];
      ghost var start := nextItemId;
      var p, itemIds := SaveItems(items);
      WalkShape(dishes, items);
      NumberedBlock(start, p.saved);
      if p.stop == DishMissing {
        return Fail(DishNotFound);
      }
      if p.stop == Threw {
        return Fail(CannotCreateOrder);
      }
      var order := Order(nextOrderId, Some(customer.id), None, Some(restaurantId), itemIds, Some(p.total), Pending);
      assert forall j :: 0 <= j < |itemIds| ==> itemIds[j] in orderItems;
      orders := orders[order.id := order];
      nextOrderId := nextOrderId + 1;
      published := published + [PendingOrders(order, restaurant.ownerId)];
      r := Ok(order.id);
    }

    /** The loop of `createOrder` over the requested items: price each one,
        add its price to the order total and save it, until a dish is
        missing or a selection throws. */
    method SaveItems(items: seq<OrderItem>) returns (p: Progress, itemIds: seq<OrderItemId>)
      requires forall k :: k in orderItems ==> k < nextItemId
      modifies this`orderItems, this`nextItemId
      ensures p == Walk(dishes, items)
      ensures orderItems == old(orderItems) + Numbered(old(nextItemId), p.saved)
      ensures nextItemId == old(nextItemId) + |p.saved|
      ensures itemIds == IdRange(old(nextItemId), |p.saved|)
    {
      var menu := dishes;
      ghost var before, start := orderItems, nextItemId;
      var orderFinalPrice := 0;
      itemIds := [];
      var i := 0;
      while i < |items|
        invariant 0 <= i <= |items|
        invariant Walk(menu, items[..i]) == Progress(items[..i], orderFinalPrice, Completed)
        invariant nextItemId == start + i
        invariant itemIds == IdRange(start, i)
        invariant orderItems == before + Numbered(start, items[..i])
      {
        var item := items[i];
        if item.dishId !in menu {
          WalkHalts(menu, items, i, orderFinalPrice);
          return Progress(items[..i], orderFinalPrice, DishMissing), itemIds;
        }
        var dishFinalPrice := PriceItem(menu[item.dishId], item.options);
        if dishFinalPrice.None? {
          WalkHalts(menu, items, i, orderFinalPrice);
          return Progress(items[..i], orderFinalPrice, Threw), itemIds;
        }
        WalkAdvance(menu, items, i, orderFinalPrice, dishFinalPrice.value);
        orderFinalPrice := orderFinalPrice + dishFinalPrice.value;
        SavedItemsGrow(before, start, items, i);
        IdRangeGrows(start, i);
        var id := SaveItem(item);
        itemIds := itemIds + [id];
        i := i + 1;
      }
      assert items[..i] == items;
      p := Progress(items, orderFinalPrice, Completed);
    }

    /** One save into the item repository: the item gets the next id. */
    method SaveItem(item: OrderItem) returns (id: OrderItemId)
      modifies this`orderItems, this`nextItemId
      ensures id == old(nextItemId) && nextItemId == id + 1
      ensures orderItems == old(orderItems)[id := item]
    {
      id := nextItemId;
      orderItems := orderItems[id := item];
      nextItemId := nextItemId + 1;
    }

    /** `editOrder`. The order must exist and be visible to the caller, and
        the caller's role must be allowed to set the new status; then only
        the status changes, a cooked-order event follows when an owner sets
        Cooked, and one order-update event follows in every case. */
    method EditOrder(user: User, orderId: OrderId, status: OrderStatus) returns (r: Output<()>)
      requires Valid()
      modifies this
      ensures Valid()
      ensures restaurants == old(restaurants) && dishes == old(dishes) && orderItems == old(orderItems)
      ensures nextOrderId == old(nextOrderId) && nextItemId == old(nextItemId)
      ensures r.Fail? ==> orders == old(orders) && published == old(published)
      ensures orderId !in old(orders) ==> r == Fail(EditOrderNotFound)
      ensures orderId in old(orders) ==>
        var order := old(orders)[orderId];
        var canSee := CanSeeOrder(user, order, LoadRestaurant(restaurants, order));
        && (canSee.None? ==> r == Fail(CannotEditOrder))
        && (canSee == Some(false) ==> r == Fail(CantSeeThat))
        && (canSee == Some(true) && !MayEdit(user.role, status) ==> r == Fail(NotAllowed))
        && (canSee == Some(true) && MayEdit(user.role, status) ==>
              var edited := order.(status := status);
              && r == Ok(())
              && orders == old(orders)[orderId := edited]
              && published == old(published)
                   + (if user.role == Owner && status == Cooked then [CookedOrders(edited)] else [])
                   + [OrderUpdates(edited)])
      ensures user.role == Client ==> r.Fail?
      ensures r.Ok? ==> Setter(status) == Some(user.role)
    {
      if orderId !in orders {
        return Fail(EditOrderNotFound);
      }
      var order := orders[orderId];
      var canSee := CanSeeOrder(user, order, LoadRestaurant(restaurants, order));
      if canSee.None? {
        return Fail(CannotEditOrder);
      }
      if !canSee.value {
        return Fail(CantSeeThat);
      }
      if !MayEdit(user.role, status) {
        return Fail(NotAllowed);
      }
      var edited := order.(status := status);
      orders := orders[orderId := edited];
      if user.role == Owner && status == Cooked {
        published := published + [CookedOrders(edited)];
      }
      published := published + [OrderUpdates(edited)];
      EditMatrixIsDocumentedOwnership(user.role, status);
      r := Ok(());
    }

    /** `takeOrder`. Any caller may take an order that has no driver yet;
        a driver, once set, is never replaced. */
    method TakeOrder(driver: User, orderId: OrderId) returns (r: Output<()>)
      requires Valid()
      modifies this
      ensures Valid()
      ensures restaurants == old(restaurants) && dishes == old(dishes) && orderItems == old(orderItems)
      ensures nextOrderId == old(nextOrderId) && nextItemId == old(nextItemId)
      ensures r.Fail? ==> orders == old(orders) && published == old(published)
      ensures orderId !in old(orders) ==> r == Fail(OrderNotFound)
      ensures orderId in old(orders) && old(orders)[orderId].driverId.Some? ==> r == Fail(AlreadyHasDriver)
      ensures orderId in old(orders) && old(orders)[orderId].driverId.None? ==>
        var taken := old(orders)[orderId].(driverId := Some(driver.id));
        && r == Ok(())
        && orders == old(orders)[orderId := taken]
        && published == old(published) + [OrderUpdates(taken)]
      ensures r.Ok? && driver.role == Delivery ==>
        CanSeeOrder(driver, orders[orderId], LoadRestaurant(restaurants, orders[orderId])) == Some(true)
    {
      if orderId !in orders {
        return Fail(OrderNotFound);
      }
      var order := orders[orderId];
      if order.driverId.Some? {
        return Fail(AlreadyHasDriver);
      }
      var taken := order.(driverId := Some(driver.id));
      orders := orders[orderId := taken];
      published := published + [OrderUpdates(taken)];
      r := Ok(());
    }
  }

  /** Taking the same order twice: the first call wins, the second is
      refused and leaves the first driver in place. */
  method TakeOrderTwice(service: OrdersService, first: User, second: User, orderId: OrderId) returns (r1: Output<()>, r2: Output<()>)
    requires service.Valid() && orderId in service.orders && service.orders[orderId].driverId.None?
    modifies service
    ensures r1 == Ok(()) && r2 == Fail(AlreadyHasDriver)
    ensures orderId in service.orders && service.orders[orderId].driverId == Some(first.id)
  {
    r1 := service.TakeOrder(first, orderId);
    r2 := service.TakeOrder(second, orderId);
  }
}
