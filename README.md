# Nuber Eats server: orders and accounts

A Dafny model of the two stateful services of the Nuber Eats back end.

**Order workflow (`OrdersService`).**
- `createOrder` prices every requested item. It starts from the dish's base price. It then adds, for each selection, the matched option's flat `extra`, or else the `extra` of the selected choice.
- Each priced item is saved, and the order is saved with the summed total.
- A pending-order event is published for the restaurant's owner.
- `canSeeOrder`, `getOrder` and `getOrders` decide who sees which order.
- `editOrder` applies the role/status matrix and publishes updates.
- `takeOrder` assigns a driver at most once.

**Account and verification state machine (`UsersService`).**
- `createAccount` enforces unique e-mail addresses and issues a verification code.
- `login` and `findById` look users up.
- `editProfile` changes the address or the password. A change of address clears `verified` and replaces the user's verification.
- `verifyEmail` consumes a code and marks its user verified.

## Files

- `common.dfy`: `Option`; `Output` (the `{ ok, error? }` answers); `Find`, the first-match lookup that `Array.prototype.find` and `findOne` by a column perform.
- `user_entity.dfy`, `restaurant_entity.dfy`, `dish_entity.dfy`, `order_entity.dfy`: the records as datatypes. `ValidDish` holds the dish validators: a name of at least 5 characters and a description of 5 to 140.
- `pricing.dfy`: the pricing of one item.
  - `SelectionExtra`, `Extras` and `ItemPrice` are the specification.
  - `PriceItem` is the service's loop, and `PriceSelection` is its body.
  - `None` stands for the TypeError the source raises when it dereferences a missing value.
- `checkout.dfy`: `Walk` is the outcome of `createOrder`'s loop over the items. It records the saved prefix, the running total, and why the loop stopped. `Total` is the reference sum of item prices.
- `orders.dfy`:
  - The queries are functions over the repositories' contents.
  - `OrdersService` holds the repositories as maps and the publications as a ghost log.
- `users.dfy`:
  - `UsersService` holds the user table as a sequence, where id = position + 1.
  - The verification table is a map from code to user id.
  - The mails sent are a ghost log.
  - Hashing, password comparison, token signing and code generation are parameters.

Where the code and its documentation differ, the model follows the code:
- `editOrder` answers "User not found" for a missing order.
- Delivery users' order listings are filtered by customer (see Findings).
- An owner whose order has lost its restaurant makes `canSeeOrder` throw.

## Model

| member | source | states |
|---|---|---|
| OrderEntity.FlowIndex | src/orders/entities/order.entity.ts:22-30 | every status has one place in the five-step flow Pending, Cooking, Cooked, PickedUp, Delivered |
| OrderEntity.Setter | src/orders/entities/order.entity.ts:22-29 | nobody sets Pending; the owner sets exactly the 2nd and 3rd statuses of the flow; the driver sets exactly the 4th and 5th |
| DishEntity.ValidDish | src/restaurants/entities/dish.entity.ts:34-52 | a dish is admitted only with a name of at least 5 characters and a description of 5 to 140 characters |
| Pricing.SelectionExtra | src/orders/orders.service.ts:57-68 | what one selection adds: 0 for a name no option has, the first matching option's non-zero flat extra, else the extra of the first choice equal to the selected value (0 when absent or 0); a throw for a null options column or a missing choices list or choice |
| Pricing.ItemPrice | src/orders/orders.service.ts:54-70 | an item costs its dish's base price plus what each selection adds, in order; an absent selection list or any throwing selection throws |
| Pricing.PriceItem | src/orders/orders.service.ts:54-70 | the pricing loop returns exactly `ItemPrice`: base price plus each selection's extra, or a throw when the selection list is absent or a selection throws |
| Pricing.PriceSelection | src/orders/orders.service.ts:57-68 | the loop body yields exactly `SelectionExtra`, whose branches are proved about the item price by UnmatchedSelectionIgnored, FlatExtraTakesPrecedence, ChosenValueAddsItsExtra, MissingChoiceThrows and NullOptionsThrows |
| Pricing.ExtrasAppend | src/orders/orders.service.ts:56-70 | what a list of selections adds is the sum of what its two halves add, and a throw in either half throws |
| Pricing.ExtrasThrowPersists | src/orders/orders.service.ts:63-64 | once a selection throws, any longer list of selections throws |
| Pricing.UnmatchedSelectionIgnored | src/orders/orders.service.ts:57-58 | a selection naming no option of the dish leaves the item price unchanged wherever it appears |
| Pricing.SelectionOrderIrrelevant | src/orders/orders.service.ts:56-70 | the item price does not depend on the order of the selections |
| Pricing.MissingChoiceThrows | src/orders/orders.service.ts:59-64 | a matched option with no non-zero flat extra, whose choices list is absent or lacks the chosen value, makes the whole item throw |
| Pricing.FlatExtraTakesPrecedence | src/orders/orders.service.ts:59-61 | a matched option with a non-zero flat extra adds exactly that extra, whatever choices it also declares |
| Pricing.ChosenValueAddsItsExtra | src/orders/orders.service.ts:62-67 | a matched option without a non-zero flat extra adds exactly the extra of the first choice equal to the selected value, or nothing when that extra is absent or 0 |
| Pricing.NullOptionsThrows | src/orders/orders.service.ts:57 | a dish whose options column is null makes any item with at least one selection throw |
| Pricing.PriceAtLeastBase | src/orders/orders.service.ts:54-70 | with non-negative surcharges a priced item costs at least the dish's base price |
| Pricing.ExtrasNonNegative | src/orders/orders.service.ts:56-70 | with non-negative surcharges what the selections add is non-negative |
| Pricing.LargeSizeCostsTwelve | src/orders/orders.service.ts:54-70 | a 10 dish with "Size" offering "Large" at +2 costs 12 with "Large" selected |
| Checkout.Step | src/orders/orders.service.ts:47-75 | one turn of the item loop: a missing dish stops the run as DishMissing, a throwing price as Threw, otherwise the item is saved and its price added |
| Checkout.Walk | src/orders/orders.service.ts:46-77 | the loop over the request, one turn per item until the first turn that stops it |
| Checkout.WalkShape | src/orders/orders.service.ts:46-77 | the saved items are the request up to the first item whose dish is missing or whose pricing throws; each is priceable; the run completes exactly when all items were saved |
| Checkout.WalkTotal | src/orders/orders.service.ts:44-71 | the running total is the sum of the saved items' prices; a completed run's total is the whole request's `Total` |
| Checkout.WalkStopsForGood | src/orders/orders.service.ts:48-53 | after the loop stops, later items are neither priced nor saved |
| Checkout.WalkHalts | src/orders/orders.service.ts:47-53 | the first item that cannot be priced ends the run: a missing dish stops it as DishMissing, a throw as Threw |
| Checkout.LargePizzaOrderTotalsTwelve | src/orders/orders.service.ts:44-77 | an order of one large pizza completes with total 12 and that item saved |
| Orders.CanSeeOrder | src/orders/orders.service.ts:149-161 | visible exactly when the caller's own field matches: customer for a client, driver for a driver, the restaurant's owner for an owner; throws exactly for an owner whose order has no restaurant |
| Orders.GetOrder | src/orders/orders.service.ts:163-194 | returns the stored order exactly when it exists and is visible; otherwise "Order not found", "You cannot see that", or "Cannot Get Order" for a throwing check |
| Orders.GetOrders | src/orders/orders.service.ts:107-134 | as written: the listing is a part of the store and every listed order matches the status filter |
| Orders.VisibleOrders | src/orders/orders.service.ts:115-121 | corrected listing: holds exactly the orders `getOrder` would show the caller that match the status filter |
| Orders.DriverListingIsCustomerListing | src/orders/orders.service.ts:115-121 | as written, a driver gets the listing of a client with the same id |
| Orders.ListingCorrectExceptForDrivers | src/orders/orders.service.ts:107-134 | for clients and owners the listing as written equals the corrected one |
| Orders.DriverListingMissesAssignedOrder | src/orders/orders.service.ts:115-121 | an order a driver drives but did not place is shown by `getOrder` and missing from their listing |
| Orders.DriverListingShowsForeignOrder | src/orders/orders.service.ts:115-121 | an order a driver placed but does not drive is in their listing though `getOrder` refuses it |
| Orders.OtherOwnersOrderHidden | src/orders/orders.service.ts:157-183 | an owner asking for another owner's restaurant's order gets "You cannot see that" |
| Orders.EditMatrixIsDocumentedOwnership | src/orders/orders.service.ts:212-234 | a role may set a status exactly when the order entity names that role as its setter; clients set nothing, nobody sets Pending |
| Orders.NumberedBlock | src/orders/orders.service.ts:72-76 | the items saved in a run occupy exactly the consecutive ids from the first one, each holding its item |
| Orders.LoadRestaurant | src/orders/entities/order.entity.ts:54-60 | the eagerly loaded restaurant relation of an order: the restaurant it names, or null when there is none or it was deleted |
| Orders.MayEdit | src/orders/orders.service.ts:212-228 | the edit matrix: a client may set no status, an owner only Cooking or Cooked, a driver only PickedUp or Delivered, whatever the current status |
| Orders.OrdersService.constructor | src/orders/orders.service.ts:19-33 | a service over given restaurants and dishes starts with no orders, no items and no publications |
| Orders.OrdersService.CreateOrder | src/orders/orders.service.ts:35-101 | missing restaurant: "Restaurant not found", nothing saved or published; otherwise the items up to the first failure stay saved; "Dish not found" or "Cannot create order" save no order; a complete run saves one Pending order with the total, the saved item ids, no driver, publishes one pending-order event with the owner id, and returns the new id, which its client can see |
| Orders.OrdersService.SaveItems | src/orders/orders.service.ts:44-77 | the loop's result is `Walk` of the request; the item store gains exactly the saved items under the next ids, and the returned ids are those ids in order |
| Orders.OrdersService.SaveItem | src/orders/orders.service.ts:72-76 | one save stores the item under the next id and advances the counter |
| Orders.OrdersService.EditOrder | src/orders/orders.service.ts:196-257 | "User not found", "Cannot Edit Order", "You can't see that" or "You are not allowed to do that" change nothing; success changes only that order's status, publishes a cooked-order event exactly when an owner sets Cooked, then one update; never succeeds for a client; success implies the caller's role is the status's documented setter |
| Orders.OrdersService.TakeOrder | src/orders/orders.service.ts:259-290 | "Order not found" or "This order already has a driver" change nothing; otherwise the caller becomes the driver, one update is published, nothing else changes; there is no role check, and a delivery caller can see the order afterwards |
| Orders.TakeOrderTwice | src/orders/orders.service.ts:268-277 | of two takes of a driverless order the first succeeds, the second is refused and the first driver stays |
| Users.Login | src/users/users.service.ts:44-72 | "User Not Found.." exactly when no user has the address; success only for a user with that address whose stored hash accepts the password, with a token signed for that user |
| Users.Stored | src/users/entities/user.entity.ts:65-75 | the insert/update hook: a non-empty password is stored as its hash, an empty one as it is |
| Users.LoginSucceedsExactly | src/users/users.service.ts:47-65 | with unique addresses the answer is fixed by the account with that address: a token for it, "Wrong Password!", or "Can't log user in." when the comparison throws |
| Users.FindById | src/users/users.service.ts:74-87 | returns a stored user with that id, or "User Not Found" exactly when no user has it |
| Users.FindByIdIsPosition | src/users/users.service.ts:76 | in a store-numbered table the user is found exactly for the ids handed out, at position id - 1 |
| Users.NewAccountCanLogIn | src/users/users.service.ts:31-65 | the account `createAccount` appends logs in with its password and gets a token for its new id |
| Users.Rotated | src/users/users.service.ts:96-98 | after the delete and the save the user has exactly one code, the fresh one, and every other user's codes are unchanged |
| Users.RotatedKeepsCodesValid | src/users/users.service.ts:96-98 | replacing a user's codes keeps every code tied to an existing user and one code per user |
| Users.UpdateKeepsTable | src/users/users.service.ts:104 | saving a user under its own id with an address nobody else has keeps addresses unique and ids in order |
| Users.UsersService.constructor | src/users/users.service.ts:16-22 | the service starts with empty tables and no mail sent |
| Users.UsersService.CreateAccount | src/users/users.service.ts:24-42 | a taken address answers "There is a user with that email already" and saves nothing; otherwise exactly one unverified user with the next id, the address, the role and the stored password, exactly one verification for it, one mail with the code, and ok |
| Users.UsersService.EditProfile | src/users/users.service.ts:89-114 | missing user: "Could not update profile.", nothing changed; a given address replaces the old one, clears `verified`, replaces the user's codes by the fresh one and mails it; a given password is stored hashed; a save clashing with another user's address fails, leaving the row but not the new code and mail |
| Users.UsersService.ResetVerification | src/users/users.service.ts:92-99 | deletes the user's verifications, saves one with the fresh code and mails it to the new address |
| Users.UsersService.SaveUser | src/users/users.service.ts:104 | the save is refused, with nothing changed, exactly when another user has the address; otherwise only that row changes |
| Users.UsersService.VerifyEmail | src/users/users.service.ts:116-142 | an unknown code answers "Verification not found" and changes nothing; a known one marks exactly its user verified, deletes the code, and leaves the user no code |
| Users.ChangeEmailThenVerify | src/users/users.service.ts:89-135 | changing an address and following the mailed code leaves the account verified under the new address with no code left |

## Left out

- Publishing goes to a ghost log of events. Subscriber filtering and delivery by the GraphQL PubSub are not modelled.
- Mail sending appends to a ghost log. The HTTP call to the mail provider is not modelled.
- Password hashing, password comparison and token signing are parameters. So is code generation: each operation that saves a verification takes the new code and requires it to be unused, standing in for a fresh random id.
- Repository calls always succeed. The catch-all answers that only a database or network fault can produce are not modelled: "Couldn't create an account", "Cannot Get Orders", "Cannot take order" and "Could not verify email".
- The catch-all answers that the shown code itself can trigger are modelled:
  - "Cannot create order" for a throwing price.
  - "Cannot Get Order" and "Cannot Edit Order" for an owner whose order has lost its restaurant.
  - "Can't log user in." for a throwing comparison.
  - "Could not update profile." for a missing user or an address clash.
- For an owner, `getOrders` also passes the status into the restaurant query. That is query-builder behaviour and is not modelled. Only the later status filter on the orders is.
- Listings are maps keyed by order id, so the order of the rows the database returns is not modelled.
- The awaits of a call do not interleave with other calls. Two racing `takeOrder` calls depend on the database and are not modelled.
- Prices are integers, not floating-point numbers.
- `order-item.entity.ts` is not part of this model. An order item is the dish id plus the selections, as the service saves it.
- Restaurants carry only their id, name and owner id.
- In `editProfile` for a user that does not exist, with neither field given, the source calls `save(undefined)`. The model treats this as a failure that changes nothing.
- `console.log` calls are not modelled.

## Findings

| source | as written | input that shows it | evidently intended | confidence | as-written member | corrected member |
|---|---|---|---|---|---|---|
| src/orders/orders.service.ts:115-121 | a Delivery user's orders are filtered by `customer: user` | driver 7 is assigned to order 3, which user 2 placed: `getOrder` shows order 3 to driver 7, but their `getOrders` listing omits it | filter by `driver: user`, so a driver lists exactly the orders `getOrder` shows them | not executed; high | Orders.GetOrders, Orders.DriverListingMissesAssignedOrder | Orders.VisibleOrders |
