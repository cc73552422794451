# shop_2 storefront: orders, stock and carts

A Dafny model of the order and stock core of the `shop_2` Spring storefront. It covers:

- the entities `Item`, `OrderItem` and `Order`, as classes whose methods change their fields in place;
- the services `OrderService`, `CartService`, `MemberService` and `ItemService`;
- the finders of `CartItemRepository` and `ItemRepository`;
- the REST endpoints of `CartController` and `OrderController`.

The database is a `Shop` object (store.dfy). It holds one map per table and the id sequence that every table draws from. Order lines draw from it too: saving an order cascades to its lines, so the order takes the next id and its lines the ids after it. `Shop.Valid()` is the integrity the database keeps:

- ids equal keys;
- foreign keys resolve;
- emails are unique;
- a member has one cart;
- a cart holds an item on one line.

Java `int` arithmetic is modelled with explicit 32-bit wrap-around (`Common.Wrap32`, `Add32`, `Sub32`, `Mul32`). That is where the stock guard of `Item.removeStock` and the `+=` of `Item.addStock` differ from integer arithmetic.

A `@Transactional` service method that throws an unchecked exception rolls back. The model writes that rollback out: on the failure path the method undoes its own changes and proves that the database is back to its old state. A checked exception does not roll back (`Common.RollsBack`). In this core the only checked exception is the file service's IOException in `saveItem` and `updateItem`. There the work done before the failure commits, and the model states what that work is.

A controller answers 400 for an exception it catches. An exception it does not catch reaches Spring, which answers 500.

Modules, one file each, in dependency order:

| module | models |
|---|---|
| Common | `Result`/`Option`/`Outcome`, the exceptions, Java `int` |
| Seqs, Queries | table scans, filters, descending sorts, single-result finders, `findById` |
| Items (item.dfy) | `entity/Item.java` |
| Carts, Members | the cart-line and member rows the services read and write |
| Store | the tables and their integrity, the finders the services call |
| Orders (order.dfy) | `entity/OrderItem.java`, `entity/Order.java` |
| Batches | the stock deductions of a list of order requests, as a function on item rows |
| OrderService | `service/OrderService.java` |
| CartItemRepository | `repository/CartItemRepository.java` |
| CartService | `service/CartService.java` |
| MemberService | `service/MemberService.java` |
| ItemRepository | `repository/ItemRepository.java` |
| ItemService | `service/ItemService.java` with the image saving of `service/ItemImgService.java` |
| Web | the response of a REST endpoint, the joined binding-error messages |
| CartController, OrderController | `controller/CartController.java`, `controller/OrderController.java` |

The central property is that stock moves exactly as the orders say:

- `OrderService.PlaceOrders`, `OrderService.CreateLines` and `Batches.Deduct` give an order's stock change or its failure;
- `Orders.Order.CancelOrder` with `Orders.RestockedIsWrappedSum` gives back exactly what the order deducted;
- `Batches.DeductLeavesNonNegative` shows that no deduction leaves a negative stock behind;
- `CartService.OrderCartItem` places one order for the principal, with one line per selected cart line (its item and count, in selection order), and removes the ordered lines; on failure it changes nothing but the id sequence.

## Model

| member | source | states |
|---|---|---|
| Items.Item.constructor | Downloads/shop_2/src/main/java/com/example/shop/service/ItemService.java:36-37 | the item saved from a form holds the form's name, price, stock, detail and sale status under its generated id |
| Items.Item.Restore | Downloads/shop_2/src/main/java/com/example/shop/service/OrderService.java:26 | a rollback puts every field of an item back to its row before the transaction |
| Items.Item.UpdateItem | Downloads/shop_2/src/main/java/com/example/shop/entity/Item.java:41-47 | after `updateItem` the item's fields are the form's, its id unchanged |
| Items.Item.RemoveStock | Downloads/shop_2/src/main/java/com/example/shop/entity/Item.java:52-63 | if the 32-bit difference stock minus n is negative, it throws OutOfStock carrying the current stock and the stock is unchanged; otherwise the stock becomes that difference; no other field changes |
| Items.Item.AddStock | Downloads/shop_2/src/main/java/com/example/shop/entity/Item.java:66-68 | the stock becomes the 32-bit sum stock plus n; no other field changes |
| Items.DeductionWithinStock | Downloads/shop_2/src/main/java/com/example/shop/entity/Item.java:52-63 | a request of 0 to stock units passes the guard and leaves exactly stock minus n, at least 0 |
| Items.DeductionBeyondStock | Downloads/shop_2/src/main/java/com/example/shop/entity/Item.java:54-60 | a request above a non-negative stock always fails the guard |
| Items.NegativeStockPassesGuard | Downloads/shop_2/src/main/java/com/example/shop/entity/Item.java:54-57 | the guard computes in 32 bits: one unit removed from the smallest int passes it, leaving the largest int |
| Items.AddStockOverflows | Downloads/shop_2/src/main/java/com/example/shop/entity/Item.java:66-68 | a restock whose exact sum exceeds the largest int wraps to a negative stock |
| Items.RemoveThenAddStock | Downloads/shop_2/src/main/java/com/example/shop/entity/Item.java:52-68 | removing n units and adding them back restores the item exactly; the removal passes exactly when the 32-bit difference is not negative |
| Carts.AddCount | Downloads/shop_2/src/main/java/com/example/shop/service/CartService.java:59 | `addCount` adds in 32 bits to the line's count and changes nothing else on the line |
| Carts.UpdateCount | Downloads/shop_2/src/main/java/com/example/shop/service/CartService.java:119 | `updateCount` sets the count and changes nothing else on the line |
| Seqs.Filter | Downloads/shop_2/src/main/java/com/example/shop/repository/ItemRepository.java:17 | the filtered rows are exactly those of the scan that satisfy the condition |
| Seqs.FilterIncreasing | Downloads/shop_2/src/main/java/com/example/shop/repository/ItemRepository.java:17 | filtering keeps a key scan strictly increasing |
| Seqs.InsertDesc | Downloads/shop_2/src/main/java/com/example/shop/repository/ItemRepository.java:26 | inserting into a descending sequence keeps it descending and adds exactly one element |
| Seqs.ConsSorted | Downloads/shop_2/src/main/java/com/example/shop/repository/ItemRepository.java:26 | a head whose key bounds a descending tail keeps it descending |
| Seqs.SortDesc | Downloads/shop_2/src/main/java/com/example/shop/repository/ItemRepository.java:26 | `order by ... desc` yields a descending permutation of its input |
| Seqs.KeysBelow | Downloads/shop_2/src/main/java/com/example/shop/repository/ItemRepository.java:17 | the table scan visits every key below the id bound exactly once, ascending |
| Seqs.ScanReachesStored | Downloads/shop_2/src/main/java/com/example/shop/repository/ItemRepository.java:17 | a row is reached by the scan exactly when the table stores it |
| Seqs.ScanTable | Downloads/shop_2/src/main/java/com/example/shop/repository/ItemRepository.java:17 | the scan lists the stored rows in key order, and exactly those rows |
| Queries.Where | Downloads/shop_2/src/main/java/com/example/shop/repository/CartItemRepository.java:13 | the keys of a derived query are exactly the stored keys whose row matches, ascending |
| Queries.NoMatch | Downloads/shop_2/src/main/java/com/example/shop/repository/CartItemRepository.java:13 | the query is empty exactly when no stored row matches |
| Queries.SeveralMatches | Downloads/shop_2/src/main/java/com/example/shop/repository/CartItemRepository.java:13 | the query has at least two results exactly when two distinct stored rows match |
| Queries.FindOne | Downloads/shop_2/src/main/java/com/example/shop/service/OrderService.java:77-78 | a single-result finder gives null when no row matches, a matching row when exactly one does, and an IncorrectResultSize exception when two do |
| Queries.FindById | Downloads/shop_2/src/main/java/com/example/shop/service/CartService.java:116-117 | `findById(..).orElseThrow` gives the stored row, or EntityNotFound exactly when the id is absent |
| Store.EmailsOfInsert | Downloads/shop_2/src/main/java/com/example/shop/service/MemberService.java:21-24 | saving a member under a new key adds exactly its email to the registered emails |
| Store.InsertMemberOk | Downloads/shop_2/src/main/java/com/example/shop/service/MemberService.java:21-24 | saving a member with a new email under the next id keeps the database consistent |
| Store.InsertOrderOk | Downloads/shop_2/src/main/java/com/example/shop/service/OrderService.java:131-133 | saving an order under the next id keeps the database consistent |
| Store.Shop.RestoreItems | Downloads/shop_2/src/main/java/com/example/shop/service/OrderService.java:26 | a rollback puts every item back to its row before the transaction |
| Store.Shop.FindByEmail | Downloads/shop_2/src/main/java/com/example/shop/service/MemberService.java:28 | `findByEmail` finds a member exactly when one is registered under that email, and that member |
| Store.Shop.MemberOf | Downloads/shop_2/src/main/java/com/example/shop/service/CartService.java:42 | the signed-in member is the stored member with the principal's email |
| Store.Shop.FindRepImg | Downloads/shop_2/src/main/java/com/example/shop/service/OrderService.java:77-78 | `findByItemIdAndRepimgYn(id, "Y")` gives null with no representative image, one when there is one, and throws IncorrectResultSize with several |
| Store.Shop.FindCartByMember | Downloads/shop_2/src/main/java/com/example/shop/service/CartService.java:45 | `findByMemberId` gives the member's cart exactly when there is one |
| Store.Shop.FindCartItem | Downloads/shop_2/src/main/java/com/example/shop/repository/CartItemRepository.java:13 | `findByCartIdAndItemId` gives the line of that item in that cart exactly when there is one |
| Batches.DeductOne | Downloads/shop_2/src/main/java/com/example/shop/service/OrderService.java:122-127 | an unknown item gives EntityNotFound; a request whose 32-bit difference would leave a negative stock gives OutOfStock with the current stock; otherwise only that item's stock changes, to a non-negative value, and a count from 0 to the stock leaves exactly stock minus count |
| Batches.Deduct | Downloads/shop_2/src/main/java/com/example/shop/service/OrderService.java:122-128 | the deductions of a list of requests change only the stock of item rows and keep every row |
| Batches.DeductStep | Downloads/shop_2/src/main/java/com/example/shop/service/OrderService.java:122-128 | one more request is one more `removeStock` on the rows left by the earlier ones, unless those already failed |
| Batches.DeductSingle | Downloads/shop_2/src/main/java/com/example/shop/service/OrderService.java:35-45 | a one-request order deducts exactly one `removeStock` |
| Batches.DeductErrSticks | Downloads/shop_2/src/main/java/com/example/shop/service/OrderService.java:122-128 | the first failing request decides the exception; later requests are not reached |
| Batches.RemainingIsWrapped | Downloads/shop_2/src/main/java/com/example/shop/entity/Item.java:52-63 | subtracting the requests one by one in 32 bits leaves the stock minus their exact sum, wrapped once |
| Batches.DeductRemaining | Downloads/shop_2/src/main/java/com/example/shop/service/OrderService.java:122-128 | after a successful batch each item holds its start stock minus its requests, step by step |
| Batches.DeductLeavesNonNegative | Downloads/shop_2/src/main/java/com/example/shop/entity/Item.java:52-63 | a successful batch leaves every item it touched with a non-negative stock |
| Batches.DeductMissing | Downloads/shop_2/src/main/java/com/example/shop/service/OrderService.java:123-124 | a request for an unknown item makes the batch fail |
| Batches.RequestedPrefix | Downloads/shop_2/src/main/java/com/example/shop/service/OrderService.java:122-128 | with non-negative counts an item's requests in a prefix never exceed all of them |
| Batches.RequestedNonNegative | Downloads/shop_2/src/main/java/com/example/shop/service/OrderService.java:122-128 | with non-negative counts an item's total request is non-negative |
| Batches.DeductSucceeds | Downloads/shop_2/src/main/java/com/example/shop/service/OrderService.java:122-128 | when every requested item exists and each item's total request is within its stock, the batch succeeds |
| Batches.DeductShort | Downloads/shop_2/src/main/java/com/example/shop/service/OrderService.java:122-128 | with non-negative counts and stocks, a batch that asks more of an item than it holds in total fails; with `DeductSucceeds` and `DeductMissing`, the batch succeeds exactly when every item exists and none is asked for more than its stock |
| Batches.PrefixSucceeds | Downloads/shop_2/src/main/java/com/example/shop/service/OrderService.java:122-128 | under the same condition every prefix succeeds and leaves stock minus the exact requests |
| Orders.OrderItem.constructor | Downloads/shop_2/src/main/java/com/example/shop/entity/OrderItem.java:33-39 | a new line holds its item, count and price, and no order yet |
| Orders.OrderItem.CreateOrderItem | Downloads/shop_2/src/main/java/com/example/shop/entity/OrderItem.java:32-44 | the line captures the item's current price and the count; the item's stock drops by the count, or OutOfStock is thrown and nothing changes |
| Orders.OrderItem.TotalPrice | Downloads/shop_2/src/main/java/com/example/shop/entity/OrderItem.java:47-49 | a line's total is its captured price times its count whenever that product fits an int |
| Orders.OrderItem.Cancel | Downloads/shop_2/src/main/java/com/example/shop/entity/OrderItem.java:53-55 | cancelling a line adds its count back to its item's stock in 32 bits |
| Orders.Order.constructor | Downloads/shop_2/src/main/java/com/example/shop/entity/Order.java:44-45 | a new order belongs to its member and has no lines |
| Orders.Order.AddOrderItem | Downloads/shop_2/src/main/java/com/example/shop/entity/Order.java:36-41 | the line is appended to the order and points back to it; nothing else changes |
| Orders.Order.CreateOrder | Downloads/shop_2/src/main/java/com/example/shop/entity/Order.java:43-57 | the new order holds the member, exactly the given lines in order, status ORDER and the current time; every line points to it; no item changes |
| Orders.Order.GetTotalPrice | Downloads/shop_2/src/main/java/com/example/shop/entity/Order.java:60-68 | the total is the exact sum of the lines' totals, wrapped to 32 bits |
| Orders.Order.CancelOrder | Downloads/shop_2/src/main/java/com/example/shop/entity/Order.java:71-77 | the status becomes CANCEL; each item on the order gets back the exact sum of its lines' counts, wrapped to 32 bits; lines, member and date stay |
| Orders.CancelLines | Downloads/shop_2/src/main/java/com/example/shop/entity/Order.java:74-76 | cancelling the lines one after another changes only the stock of their items |
| Orders.RestockedIsWrappedSum | Downloads/shop_2/src/main/java/com/example/shop/entity/Order.java:74-76 | the loop's step-by-step 32-bit additions equal one wrapped addition of the item's total count |
| Orders.LinesTotalExact | Downloads/shop_2/src/main/java/com/example/shop/entity/Order.java:60-68 | when no line's product overflows, the lines' totals add up to the sum of price times count |
| Orders.NewLineTotal | Downloads/shop_2/src/main/java/com/example/shop/entity/OrderItem.java:32-49 | a line made by `createOrderItem` totals the item's price at that moment times the count, whenever that product fits an int |
| Orders.OrderTotal | Downloads/shop_2/src/main/java/com/example/shop/entity/Order.java:60-68 | `getTotalPrice` is the sum of price times count over the lines whenever neither a product nor the sum overflows |
| Orders.CountForStep | Downloads/shop_2/src/main/java/com/example/shop/entity/Order.java:71-77 | one more line adds its count to its own item only |
| Orders.CountForAbsent | Downloads/shop_2/src/main/java/com/example/shop/entity/Order.java:71-77 | an item on no line of the order gets nothing back |
| Orders.CountForAppend | Downloads/shop_2/src/main/java/com/example/shop/entity/Order.java:71-77 | an item's count over two line lists is the sum over each |
| Orders.CreateThenCancelLine | Downloads/shop_2/src/main/java/com/example/shop/entity/OrderItem.java:32-55 | creating a line and cancelling it leaves the item exactly as before |
| Orders.CancelTwice | Downloads/shop_2/src/main/java/com/example/shop/entity/Order.java:71-77 | a second cancel is not refused and restocks every item a second time |
| Orders.EmptyOrderAccepted | Downloads/shop_2/src/main/java/com/example/shop/entity/Order.java:43-68 | an order with no lines is created with status ORDER and totals 0 |
| Orders.TotalIgnoresLaterPriceChange | Downloads/shop_2/src/main/java/com/example/shop/entity/OrderItem.java:39-49 | the order total does not change when an item's price changes after the order |
| OrderService.LinesForItems | Downloads/shop_2/src/main/java/com/example/shop/service/OrderService.java:122-128 | the lines built from requests order only items of the item table |
| OrderService.LinesForOne | Downloads/shop_2/src/main/java/com/example/shop/service/OrderService.java:42-46 | one request gives one line for its item, with its count and the item's price |
| OrderService.LinesForStep | Downloads/shop_2/src/main/java/com/example/shop/service/OrderService.java:122-128 | each loop turn adds the line of the next request |
| OrderService.PlaceOrders | Downloads/shop_2/src/main/java/com/example/shop/service/OrderService.java:116-136 | `orders` fails exactly when the deductions fail, with their exception and a rolled-back database; otherwise it saves one new order under the next id, of the member, with one line per request, draws one more id per line, and stock drops exactly by the deductions |
| OrderService.SaveOrder | Downloads/shop_2/src/main/java/com/example/shop/service/OrderService.java:131-135 | `createOrder` then `save`: a new order with exactly these lines, the member and the time, under the next id, and one more id drawn per line; nothing else changes |
| OrderService.CreateLines | Downloads/shop_2/src/main/java/com/example/shop/service/OrderService.java:122-128 | the loop fails exactly when the deductions fail; otherwise its lines match the requests one for one and the stock is the deductions' result |
| OrderService.CreateLine | Downloads/shop_2/src/main/java/com/example/shop/service/OrderService.java:123-127 | one request: EntityNotFound for an unknown item, OutOfStock when its stock is too low, else a line with the item's price |
| OrderService.Save | Downloads/shop_2/src/main/java/com/example/shop/service/OrderService.java:133-135 | `save` assigns the next id to the order and, through the cascade, the following ids to its lines, and stores the order; the database stays consistent |
| OrderService.PlaceOrder | Downloads/shop_2/src/main/java/com/example/shop/service/OrderService.java:35-54 | `order` fails exactly when its one deduction fails and then changes nothing; otherwise it saves one new order with one line for the request, drawing two ids |
| OrderService.ValidateOrder | Downloads/shop_2/src/main/java/com/example/shop/service/OrderService.java:95-106 | EntityNotFound exactly when the order is absent; otherwise true exactly when the order's member has the principal's email |
| OrderService.CancelOrder | Downloads/shop_2/src/main/java/com/example/shop/service/OrderService.java:108-113 | EntityNotFound exactly when the order is absent; otherwise the order is cancelled and its items restocked |
| OrderService.ImgUrlOfUnique | Downloads/shop_2/src/main/java/com/example/shop/service/OrderService.java:77-80 | a line's image URL, or the exception looking it up, is determined by the database |
| OrderService.ImgUrlFound | Downloads/shop_2/src/main/java/com/example/shop/service/OrderService.java:77-80 | the URL is found exactly when the item has one representative image |
| OrderService.LineImgUrl | Downloads/shop_2/src/main/java/com/example/shop/service/OrderService.java:77-80 | the lookup gives the representative image's URL, NullPointer without one, IncorrectResultSize with several |
| OrderService.ItemDto | Downloads/shop_2/src/main/java/com/example/shop/service/OrderService.java:79-80 | the line's view shows its item's name, its count, its captured price and the image URL |
| OrderService.HistOf | Downloads/shop_2/src/main/java/com/example/shop/service/OrderService.java:73-84 | an order's history entry shows each of its lines in order, or the exception of the first line whose image lookup fails |
| OrderService.GetOrderList | Downloads/shop_2/src/main/java/com/example/shop/service/OrderService.java:58-89 | the page holds one entry per fetched order, in order, with the pageable and the total count; it fails exactly when some order's image lookup fails, with the first failure |
| CartItemRepository.ImgRows | Downloads/shop_2/src/main/java/com/example/shop/repository/CartItemRepository.java:22-27 | a cart line joins exactly the representative images of its item |
| CartItemRepository.JoinScan | Downloads/shop_2/src/main/java/com/example/shop/repository/CartItemRepository.java:19-27 | the join holds exactly the pairs of a line of the cart with a representative image of its item |
| CartItemRepository.CartDetailRows | Downloads/shop_2/src/main/java/com/example/shop/repository/CartItemRepository.java:19-30 | the joined rows are exactly the stored lines of the cart paired with their items' representative images, newest line first |
| CartItemRepository.JoinedItemsStored | Downloads/shop_2/src/main/java/com/example/shop/repository/CartItemRepository.java:23 | `join ci.item` reaches only stored items |
| CartItemRepository.FindCartDetailDtoList | Downloads/shop_2/src/main/java/com/example/shop/repository/CartItemRepository.java:19-30 | one detail per joined row, in the same order |
| CartService.CartKey | Downloads/shop_2/src/main/java/com/example/shop/service/CartService.java:45 | the member's cart key exists exactly when the member has a cart |
| CartService.LineKey | Downloads/shop_2/src/main/java/com/example/shop/service/CartService.java:54-55 | the line key exists exactly when the cart holds the item |
| CartService.CartFound | Downloads/shop_2/src/main/java/com/example/shop/service/CartService.java:45-51 | the member's cart is used if it exists, else a new cart is saved under the next id; no other table changes |
| CartService.LineAdded | Downloads/shop_2/src/main/java/com/example/shop/service/CartService.java:54-68 | an existing line of the item gets the count added and keeps its id; otherwise a new line is saved under the next id; no other line changes |
| CartService.CartFoundOk | Downloads/shop_2/src/main/java/com/example/shop/service/CartService.java:45-51 | finding or creating the cart keeps the database consistent |
| CartService.LineAddedOk | Downloads/shop_2/src/main/java/com/example/shop/service/CartService.java:54-68 | adding to the cart keeps the database consistent |
| CartService.CartAddedOk | Downloads/shop_2/src/main/java/com/example/shop/service/CartService.java:37-69 | `addCart` keeps the database consistent |
| CartService.AddCartTwice | Downloads/shop_2/src/main/java/com/example/shop/service/CartService.java:37-69 | adding the same item twice gives one line whose count is the 32-bit sum of both |
| CartService.CartFor | Downloads/shop_2/src/main/java/com/example/shop/service/CartService.java:45-51 | the method finds or creates exactly the cart `CartFound` describes |
| CartService.LineFor | Downloads/shop_2/src/main/java/com/example/shop/service/CartService.java:54-68 | the method adds to or creates exactly the line `LineAdded` describes |
| CartService.LineAddedToFound | Downloads/shop_2/src/main/java/com/example/shop/service/CartService.java:58-60 | with a line of the item already in the cart, only its count changes |
| CartService.LineAddedNew | Downloads/shop_2/src/main/java/com/example/shop/service/CartService.java:62-67 | with no line of the item, one new line holding the count is saved under the next id |
| CartService.AddCart | Downloads/shop_2/src/main/java/com/example/shop/service/CartService.java:37-69 | EntityNotFound and no change exactly when the item is unknown; otherwise the cart and the line change as described and the line's id is returned |
| CartService.CountUpdatedOk | Downloads/shop_2/src/main/java/com/example/shop/service/CartService.java:115-120 | changing a line's count keeps the database consistent |
| CartService.ValidateCartItem | Downloads/shop_2/src/main/java/com/example/shop/service/CartService.java:95-112 | EntityNotFound exactly when the line is absent; otherwise true exactly when the line's cart belongs to the signed-in member |
| CartService.UpdateCartItemCount | Downloads/shop_2/src/main/java/com/example/shop/service/CartService.java:115-120 | EntityNotFound and no change exactly when the line is absent; otherwise only that line's count changes |
| CartService.DeleteCartItem | Downloads/shop_2/src/main/java/com/example/shop/service/CartService.java:123-127 | EntityNotFound and no change exactly when the line is absent; otherwise only that line is removed |
| CartService.GetCartList | Downloads/shop_2/src/main/java/com/example/shop/service/CartService.java:74-90 | an empty list for a member without a cart; otherwise the detail list of the member's cart; every entry is a line of the member's own cart |
| CartService.RecordsAreLines | Downloads/shop_2/src/main/java/com/example/shop/service/CartService.java:87 | every cart detail names a stored line: the line of its joined row |
| CartService.CartPage | Downloads/shop_2/src/main/java/com/example/shop/service/CartService.java:87 | every detail is a line of this cart, with the line's count and its item's name and price |
| CartService.CartPageNewestFirst | Downloads/shop_2/src/main/java/com/example/shop/repository/CartItemRepository.java:28 | the details are ordered newest line first |
| CartService.CartPageComplete | Downloads/shop_2/src/main/java/com/example/shop/repository/CartItemRepository.java:19-30 | for every line of the cart and every representative image of its item, that pair appears on the page |
| CartService.DtosFor | Downloads/shop_2/src/main/java/com/example/shop/service/CartService.java:135-144 | one order request per selected line, in order, with the line's item and count |
| CartService.CartOrderDtos | Downloads/shop_2/src/main/java/com/example/shop/service/CartService.java:135-144 | the loop fails with EntityNotFound exactly when a selected line is absent; otherwise it builds `DtosFor` |
| CartService.RemoveLines | Downloads/shop_2/src/main/java/com/example/shop/service/CartService.java:150-156 | the lines are deleted one by one; the loop fails exactly when an id is selected twice, otherwise exactly the selected lines are gone |
| CartService.OrderCartItem | Downloads/shop_2/src/main/java/com/example/shop/service/CartService.java:131-159 | an absent line gives EntityNotFound and no change; otherwise one order is placed for the principal, with status ORDER, the current time and one line per selected line (that line's item and count, at the item's current price, in selection order), its id and one id per line drawn, and the lines removed; on any exception nothing changes but the drawn ids |
| CartService.OrderLines | Downloads/shop_2/src/main/java/com/example/shop/service/CartService.java:147-158 | after the lines are read, the principal's order of exactly the requests is placed under the next id, with its lines under the ids after it, and the ordered lines are removed; otherwise all is rolled back but the drawn ids |
| CartService.RemoveOrdered | Downloads/shop_2/src/main/java/com/example/shop/service/CartService.java:150-156 | the ordered lines are removed and the placed order and its lines are left as they are; a repeated id throws EntityNotFound and rolls the order and its stock back |
| MemberService.ValidateDuplicateMember | Downloads/shop_2/src/main/java/com/example/shop/service/MemberService.java:27-32 | IllegalState exactly when the email is already registered |
| MemberService.SaveMember | Downloads/shop_2/src/main/java/com/example/shop/service/MemberService.java:21-24 | a duplicate email is refused and nothing changes; otherwise the member is saved under the next id; the email is registered afterwards either way |
| MemberService.LoadUserByUsername | Downloads/shop_2/src/main/java/com/example/shop/service/MemberService.java:36-50 | UsernameNotFound exactly when no member has the email; otherwise that member's email, password and role |
| MemberService.SaveMembers | Downloads/shop_2/src/main/java/com/example/shop/service/MemberService.java:21-32 | saving a list succeeds for exactly the first use of each email not yet registered, and registers every email on the list |
| MemberService.SaveNext | Downloads/shop_2/src/main/java/com/example/shop/service/MemberService.java:21-32 | one save adds its email, succeeding exactly when the email is new |
| MemberService.EmailsStep | Downloads/shop_2/src/main/java/com/example/shop/service/MemberService.java:21-32 | the emails of a longer prefix add one email, already present exactly when an earlier member has it |
| MemberService.SaveTwice | Downloads/shop_2/src/main/java/com/example/shop/service/MemberService.java:21-32 | saving the same member twice: the second save is always refused |
| ItemRepository.Contains | Downloads/shop_2/src/main/java/com/example/shop/repository/ItemRepository.java:29 | `like %pat%` holds exactly when the pattern occurs in the text |
| ItemRepository.FindByItemNm | Downloads/shop_2/src/main/java/com/example/shop/repository/ItemRepository.java:17 | exactly the stored items with that name |
| ItemRepository.FindByItemNmOrItemDetail | Downloads/shop_2/src/main/java/com/example/shop/repository/ItemRepository.java:20 | exactly the stored items with that name or that detail |
| ItemRepository.FindByPriceLessThan | Downloads/shop_2/src/main/java/com/example/shop/repository/ItemRepository.java:23 | exactly the stored items cheaper than the price |
| ItemRepository.FindByPriceLessThanOrderByPriceDesc | Downloads/shop_2/src/main/java/com/example/shop/repository/ItemRepository.java:26 | the rows of `findByPriceLessThan`, each as often, most expensive first |
| ItemRepository.DetailMatches | Downloads/shop_2/src/main/java/com/example/shop/repository/ItemRepository.java:29 | exactly the stored items whose detail contains the text |
| ItemRepository.FindByItemDetail | Downloads/shop_2/src/main/java/com/example/shop/repository/ItemRepository.java:29-30 | exactly the stored items whose detail contains the text, each as often as in the unsorted rows, most expensive first |
| ItemRepository.PriceOrderSameRows | Downloads/shop_2/src/main/java/com/example/shop/repository/ItemRepository.java:23-26 | the sorted finder returns the same items as the unsorted one |
| ItemRepository.EmptySearchFindsAll | Downloads/shop_2/src/main/java/com/example/shop/repository/ItemRepository.java:29-30 | an empty search text finds every stored item |
| ItemService.FirstImgsRows | Downloads/shop_2/src/main/java/com/example/shop/service/ItemService.java:40-49 | the first n files are saved under n consecutive keys, file i as image i with flag Y only for i = 0 |
| ItemService.RepImgsOfNewItem | Downloads/shop_2/src/main/java/com/example/shop/service/ItemService.java:43-47 | a new item's only representative image is the one of its first file |
| ItemService.NewItemRepImg | Downloads/shop_2/src/main/java/com/example/shop/service/ItemService.java:43-47 | a new item has one representative image exactly when files were given, none otherwise |
| ItemService.UploadedPrefix | Downloads/shop_2/src/main/java/com/example/shop/service/ItemService.java:40-49 | the number of files saved before the first failing upload: every earlier file uploads, and the file at that index does not |
| ItemService.SaveItem | Downloads/shop_2/src/main/java/com/example/shop/service/ItemService.java:32-52 | the item is saved under the next id with the form's fields, then the images of the files before the first failing upload under the ids after it; it throws exactly when an upload fails, and that checked exception commits the item and those images; on success the new item has one representative image exactly when files were given |
| ItemService.SaveItemImgs | Downloads/shop_2/src/main/java/com/example/shop/service/ItemService.java:40-49 | the loop saves the images of the files before the first failing upload, in order, one id each, and reports whether every file was saved |
| ItemService.NewImg | Downloads/shop_2/src/main/java/com/example/shop/service/ItemImgService.java:28-43 | the image row keeps its id, item, flag and original name; a file without a name has empty stored name and URL; an uploaded file its stored name and `/images/item/` URL |
| ItemService.SaveItemImg | Downloads/shop_2/src/main/java/com/example/shop/service/ItemImgService.java:28-43 | a file without a name is saved with empty stored name and URL; any other under its stored name and `/images/item/` URL |
| ItemService.ImgKeysOf | Downloads/shop_2/src/main/java/com/example/shop/service/ItemService.java:56 | `findByItemIdOrderByIdAsc` reads exactly the item's image keys, ascending |
| ItemService.ImgsOf | Downloads/shop_2/src/main/java/com/example/shop/service/ItemService.java:56 | the item's images, in key order |
| ItemService.ImgsOfSorted | Downloads/shop_2/src/main/java/com/example/shop/service/ItemService.java:56 | the images are exactly the item's stored images, ascending by id |
| ItemService.GetItemDtl | Downloads/shop_2/src/main/java/com/example/shop/service/ItemService.java:54-69 | EntityNotFound exactly when the item is absent; otherwise the item's form with one image view per image, in id order |
| ItemService.UpdateImg | Downloads/shop_2/src/main/java/com/example/shop/service/ItemImgService.java:46-77 | an empty file changes nothing; otherwise the image must exist and the upload succeed, and the image gets the new names |
| ItemService.ImgUpdates | Downloads/shop_2/src/main/java/com/example/shop/service/ItemService.java:82-90 | the image loop keeps the table's keys; it throws only EntityNotFound, the file service's failure, or IndexOutOfBounds, the last only when there are fewer image ids than files |
| ItemService.UpdatesStopAtError | Downloads/shop_2/src/main/java/com/example/shop/service/ItemService.java:85-90 | the first failing image update ends the loop with its exception |
| ItemService.UpdatesNeedIds | Downloads/shop_2/src/main/java/com/example/shop/service/ItemService.java:85-90 | the loop succeeds only if there is an image id for every file |
| ItemService.UpdatesKeepRows | Downloads/shop_2/src/main/java/com/example/shop/service/ItemService.java:85-90 | image updates keep every image's id, item and representative flag |
| ItemService.UpdatesPairByIndex | Downloads/shop_2/src/main/java/com/example/shop/service/ItemService.java:85-90 | with distinct ids, file i updates image id i |
| ItemService.LoopImgs | Downloads/shop_2/src/main/java/com/example/shop/service/ItemService.java:85-90 | the image table after the rounds that completed keeps every key, and is the loop's result when no round throws |
| ItemService.LoopStopsAtError | Downloads/shop_2/src/main/java/com/example/shop/service/ItemService.java:85-90 | after a round throws, no later round changes the image table |
| ItemService.UpdateItem | Downloads/shop_2/src/main/java/com/example/shop/service/ItemService.java:72-93 | EntityNotFound for an unknown item, with nothing changed; an unchecked exception from the image loop rolls the item and the images back; on success, and on the file service's checked exception, the item keeps the form's fields and the images the updates of the rounds that completed |
| ItemService.UpdateItemImgs | Downloads/shop_2/src/main/java/com/example/shop/service/ItemService.java:85-90 | the loop applies the image updates in order up to the first exception, which it reports, and leaves the rows updated before it |
| Web.ConcatAppend | Downloads/shop_2/src/main/java/com/example/shop/controller/CartController.java:33-40 | joining two message lists joins their texts |
| Web.ConcatHoldsEach | Downloads/shop_2/src/main/java/com/example/shop/controller/CartController.java:33-40 | every field message appears whole in the body, after the messages before it |
| Web.JoinMessages | Downloads/shop_2/src/main/java/com/example/shop/controller/CartController.java:33-40 | the `StringBuilder` loop appends every message in order |
| CartController.AddToCart | Downloads/shop_2/src/main/java/com/example/shop/controller/CartController.java:28-54 | binding errors give 400 with the joined messages; an unknown item gives 400 with the exception; both change nothing; otherwise 200 with the line id of `addCart` |
| CartController.UpdateCartItem | Downloads/shop_2/src/main/java/com/example/shop/controller/CartController.java:70-86 | a count of 0 or less gives 400; an absent line 500; a line of another member 403; these change nothing; otherwise 200 and only the count changes |
| CartController.DeleteCartItem | Downloads/shop_2/src/main/java/com/example/shop/controller/CartController.java:90-102 | an absent line gives 500; a line of another member 403; neither changes anything; otherwise 200 and only that line is removed |
| CartController.OwnershipCheck | Downloads/shop_2/src/main/java/com/example/shop/controller/CartController.java:118-124 | the check throws only EntityNotFound, and refuses only when some selected line is another member's (both directions in `OwnershipCheckPasses` and `OwnershipCheckThrows`) |
| CartController.OwnershipCheckPasses | Downloads/shop_2/src/main/java/com/example/shop/controller/CartController.java:118-124 | the check passes exactly when every selected line belongs to the member |
| CartController.OwnershipCheckThrows | Downloads/shop_2/src/main/java/com/example/shop/controller/CartController.java:118-124 | the check throws only EntityNotFound, and only when a selected line is absent |
| CartController.CheckOwnership | Downloads/shop_2/src/main/java/com/example/shop/controller/CartController.java:118-124 | the loop returns at the first line that is absent or another member's |
| CartController.Reply | Downloads/shop_2/src/main/java/com/example/shop/controller/CartController.java:126-129 | a call that returns answers 200 with its id; an exception the controller does not catch answers 500 |
| CartController.OrderCartItem | Downloads/shop_2/src/main/java/com/example/shop/controller/CartController.java:105-130 | an empty selection gives 403; an absent line 500; another member's line 403; these change nothing; otherwise the service places the principal's order of the selected lines' items and counts and its id is answered, or its exception gives 500 |
| OrderController.Order | Downloads/shop_2/src/main/java/com/example/shop/controller/OrderController.java:33-67 | binding errors give 400; a failing order gives 400 with its exception and changes nothing; otherwise 200 with the new order's id |
| OrderController.PageOf | Downloads/shop_2/src/main/java/com/example/shop/controller/OrderController.java:74 | page 0 when absent, the given page otherwise, 4 orders a page; a negative page throws IllegalArgument |
| OrderController.NoPageIsFirstPage | Downloads/shop_2/src/main/java/com/example/shop/controller/OrderController.java:74 | without a page number the history opens on page 0 |
| OrderController.OrderHist | Downloads/shop_2/src/main/java/com/example/shop/controller/OrderController.java:70-86 | the view gets the page of the member's orders, the page number and 5 page links; a bad page or a failing image lookup ends the request |
| OrderController.CancelOrder | Downloads/shop_2/src/main/java/com/example/shop/controller/OrderController.java:90-104 | an absent order gives 500; another member's 403; neither changes anything; otherwise 200 and the order is cancelled and its items restocked |

## Left out

- `OrderRepository.findOrders` and `countOrder` are not part of this model: `GetOrderList` and `OrderHist` take the fetched orders and the count as parameters.
- `FileService` is not part of this model. Each uploaded file carries the stored name the upload returns, or none when the upload throws. File bytes, the storage location and deleting the old file are not modelled.
- `ItemFormDto.createItem`/`of`, `ItemImgDto.of`, the `CartItem`, `Member`, `Cart` and `ItemImg` entities and the other repositories are not part of this model. They are modelled by the plain copying and saving the services need.
- `Queries.FindOne`: a finder without `order by` promises no row order, so the model states only which rows it returns. The order among equal prices in the sorted finders is not stated either.
- `ItemRepository.Contains`: the `%` and `_` wildcards inside the search text are not interpreted.
- `CartItemRepository.FindCartDetailDtoList`: how often a line repeats when its item has several representative images is stated through the join, not counted.
- `CartService.OrderLines`: the id sequence is not rolled back with a failed transaction. In the model the sequence only grows, as a database sequence does.
- `Orders.OrderItem`: a line's generated id is drawn from the sequence when its order is saved, but the model does not store it on the line. Nothing in the core reads a line's id.
- `FileService` throwing an unchecked exception is not modelled: every upload failure is the checked IOException, which commits the work before it.
- Every service that reads the principal requires the email to be registered, because Spring Security only lets registered members in. The `null` member and `null` list paths are not modelled.
- `UpdateItem` does not check that an image id belongs to the item being updated. The source does not check it either.
- Bean validation of request bodies is not modelled: the field errors are an input of `AddToCart` and `Order`.
- Exception messages are not modelled: a response body carries the exception itself.
- Clock and dates: `LocalDateTime.now()` is a parameter `now`. Date formatting in `OrderHistDto` is not modelled.
- Concurrency: there are no concurrent transactions, and lost updates on the same item's stock are not modelled.
- Controller methods that only return a view are not modelled: `CartController.orderHist` (GET /cart), `ItemController` and `MemberController`.
- `ItemService.getAdminItemPage` and `getMainItemPage` are left out: their Querydsl implementation is not part of this model.
- Password hashing, `SecurityConfig` and the login flow are not part of this model.
- Two behaviours one might expect are absent from the code:
  - rejecting a second cancellation of an order. The model follows the code: `Orders.CancelTwice` shows that a second cancel restocks again.
  - refusing an order without lines. The model follows the code: `Orders.EmptyOrderAccepted` shows that such an order is created.
