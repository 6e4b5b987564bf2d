/** The `Order` record, its status enumeration and the order items it owns. */
module OrderEntity {
  import opened Common
  import opened UserEntity
  import opened RestaurantEntity
  import opened DishEntity

  type OrderId = nat
  type OrderItemId = nat

  /** Declared in the order of the canonical flow. */
  datatype OrderStatus = Pending | Cooking | Cooked | PickedUp | Delivered

  const Flow: seq<OrderStatus> := [Pending, Cooking, Cooked, PickedUp, Delivered]

  /** Where a status stands in the canonical flow. */
  function FlowIndex(s: OrderStatus): (i: nat)
    ensures i < |Flow| && Flow[i] == s
  {
    match s
    case Pending => 0
    case Cooking => 1
    case Cooked => 2
    case PickedUp => 3
    case Delivered => 4
  }

  /** The role that the entity's documentation makes responsible for moving
      an order into a status: the owner cooks, the driver delivers, and
      nobody sets `Pending`, which is only the initial value. */
  function Setter(s: OrderStatus): (r: Option<UserRole>)
    ensures r.None? <==> s == Pending
    ensures r == Some(Owner) <==> FlowIndex(s) in {1, 2}
    ensures r == Some(Delivery) <==> FlowIndex(s) in {3, 4}
  {
    match s
    case Pending => None
    case Cooking => Some(Owner)
    case Cooked => Some(Owner)
    case PickedUp => Some(Delivery)
    case Delivered => Some(Delivery)
  }

  /** One selection for an order item: the option's name and, for a
      choice-based option, the chosen value. */
  datatype OrderItemOption = OrderItemOption(name: string, choice: Option<string>)

  /** An order item as requested and as saved: a dish and its selections
      (the list itself may be absent). */
  datatype OrderItem = OrderItem(dishId: DishId, options: Option<seq<OrderItemOption>>)

  /** The customer, driver and restaurant references are all optional; the
      ids stand for the related records, so no driver means no `driverId`.
      `total` is optional and `status` defaults to `Pending`. */
  datatype Order = Order(
    id: OrderId,
    customerId: Option<UserId>,
    driverId: Option<UserId>,
    restaurantId: Option<RestaurantId>,
    items: seq<OrderItemId>,
    total: Option<int>,
    status: OrderStatus)
}
