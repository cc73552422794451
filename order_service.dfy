/**
 * `service/OrderService.java`: placing an order for one item or for a
 * batch, ownership of an order, cancelling, and the order history page.
 * The service is transactional: when placing fails part-way, the stock
 * deductions already made are rolled back.
 */
module OrderService {
  import opened Common
  import opened Queries
  import opened Items
  import opened Members
  import opened Orders
  import opened Batches
  import opened Store

  /**
   * The lines were built from the requests one for one, in request order:
   * the requested item object, the requested count and the item's price
   * in `rows` (prices do not change while an order is placed).
   */
  ghost predicate LinesFor(lines: seq<OrderItem>, dtos: seq<OrderDto>, items: map<int, Item>, rows: map<int, ItemData>) {
    && |lines| == |dtos|
    && forall j :: 0 <= j < |dtos| ==>
         && dtos[j].itemId in items && dtos[j].itemId in rows
         && lines[j].item == items[dtos[j].itemId]
         && lines[j].count == dtos[j].count
         && lines[j].orderPrice == rows[dtos[j].itemId].price
  }

  /** Lines built from the requests order only items of the table. */
  lemma LinesForItems(lines: seq<OrderItem>, dtos: seq<OrderDto>, items: map<int, Item>, rows: map<int, ItemData>)
    requires LinesFor(lines, dtos, items, rows)
    ensures ItemsOf(lines) <= items.Values
  {
    forall it | it in ItemsOf(lines) ensures it in items.Values {
      var j :| 0 <= j < |lines| && lines[j].item == it;
      assert items[dtos[j].itemId] == it;
    }
  }

  /** The line built for a single request. */
  lemma LinesForOne(line: OrderItem, d: OrderDto, items: map<int, Item>, rows: map<int, ItemData>)
    requires d.itemId in items && d.itemId in rows
    requires line.item == items[d.itemId] && line.count == d.count && line.orderPrice == rows[d.itemId].price
    ensures LinesFor([line], [d], items, rows) && ItemsOf([line]) <= items.Values
  {
    assert ItemsOf([line]) == {line.item};
  }

  /** A line built for the next request extends lines built for the earlier ones. */
  lemma LinesForStep(lines: seq<OrderItem>, dtos: seq<OrderDto>, i: nat, line: OrderItem,
                     items: map<int, Item>, rows: map<int, ItemData>)
    requires i < |dtos| && LinesFor(lines, dtos[..i], items, rows)
    requires dtos[i].itemId in items && dtos[i].itemId in rows
    requires line.item == items[dtos[i].itemId] && line.count == dtos[i].count
    requires line.orderPrice == rows[dtos[i].itemId].price
    ensures LinesFor(lines + [line], dtos[..i + 1], items, rows)
  {
    var next, front := lines + [line], dtos[..i + 1];
    forall j | 0 <= j < |front|
      ensures front[j].itemId in items && front[j].itemId in rows && next[j].item == items[front[j].itemId]
      ensures next[j].count == front[j].count && next[j].orderPrice == rows[front[j].itemId].price
    {
      if j < i {
        assert front[j] == dtos[..i][j] && next[j] == lines[j];
      }
    }
  }

  /**
   * `orders`: one order for the whole batch. Each request looks its item up
   * and deducts its count, in list order; the first unknown item or short
   * stock aborts the transaction, which puts every earlier deduction back
   * and saves nothing. Otherwise one order holding one line per request is
   * saved under the next id, its lines (saved with it by the cascade) under
   * the ids after it, and the item table is what `Deduct` computes.
   */
  method PlaceOrders(shop: Shop, dtos: seq<OrderDto>, email: string, now: int) returns (r: Result<int>)
    requires shop.Valid() && shop.Registered(email)
    modifies shop, shop.items.Values
    ensures shop.Valid()
    ensures r.Err? <==> Deduct(old(shop.ItemRows()), dtos).Err?
    ensures r.Err? ==>
      && r.error == Deduct(old(shop.ItemRows()), dtos).error
      && shop.Snapshot() == old(shop.Snapshot()) && shop.nextId == old(shop.nextId)
      && shop.ItemsAre(old(shop.ItemRows()))
    ensures r.Ok? ==>
      && r.value == old(shop.nextId) && shop.nextId == old(shop.nextId) + 1 + |dtos|
      && shop.ItemsAre(Deduct(old(shop.ItemRows()), dtos).value)
      && shop.Snapshot() == old(shop.Snapshot()).(orders := shop.orders)
      && r.value !in old(shop.orders) && r.value in shop.orders
      && shop.orders == old(shop.orders)[r.value := shop.orders[r.value]]
      && fresh(shop.orders[r.value])
      && Saved(shop.orders[r.value], r.value, old(shop.MemberOf(email)), now)
      && LinesFor(shop.orders[r.value].orderItems, dtos, shop.items, old(shop.ItemRows()))
  {
    var rows0 := shop.ItemRows();  // what a rollback restores
    var member := shop.MemberOf(email);
    var lines := CreateLines(shop, dtos);
    if lines.Err? {
      shop.RestoreItems(rows0);
      return Err(lines.error);
    }
    LinesForItems(lines.value, dtos, shop.items, rows0);
    r := SaveOrder(shop, member, lines.value, now, Deduct(rows0, dtos).value);
  }

  /** `createOrder` over the built lines, then `save`. */
  method SaveOrder(shop: Shop, member: Member, lines: seq<OrderItem>, now: int, ghost rows: map<int, ItemData>)
    returns (r: Result<int>)
    requires shop.Valid() && ItemsOf(lines) <= shop.items.Values && shop.ItemsAre(rows)
    modifies shop, set l | l in lines
    ensures shop.Valid() && shop.ItemsAre(rows)
    ensures r == Ok(old(shop.nextId)) && shop.nextId == old(shop.nextId) + 1 + |lines|
    ensures shop.Snapshot() == old(shop.Snapshot()).(orders := shop.orders)
    ensures r.value !in old(shop.orders) && r.value in shop.orders
    ensures shop.orders == old(shop.orders)[r.value := shop.orders[r.value]]
    ensures fresh(shop.orders[r.value]) && shop.orders[r.value].orderItems == lines
    ensures Saved(shop.orders[r.value], r.value, member, now)
  {
    var o := Order.CreateOrder(member, lines, now);
    r := Save(shop, o);
  }

  /**
   * The loop of `orders`: a line per request, in list order, each deducting
   * its count; it stops at the first request that throws, leaving the
   * deductions made so far for the rollback to undo.
   */
  method CreateLines(shop: Shop, dtos: seq<OrderDto>) returns (r: Result<seq<OrderItem>>)
    requires ItemTableOk(shop.items, shop.nextId)
    modifies shop.items.Values
    ensures r.Err? <==> Deduct(old(shop.ItemRows()), dtos).Err?
    ensures r.Err? ==> r.error == Deduct(old(shop.ItemRows()), dtos).error
    ensures r.Ok? ==>
      && shop.ItemsAre(Deduct(old(shop.ItemRows()), dtos).value)
      && LinesFor(r.value, dtos, shop.items, old(shop.ItemRows()))
      && fresh(set l | l in r.value)
  {
    ghost var rows0 := shop.ItemRows();
    var lines: seq<OrderItem> := [];
    for i := 0 to |dtos|
      invariant Deduct(rows0, dtos[..i]).Ok?
      invariant shop.ItemsAre(Deduct(rows0, dtos[..i]).value)
      invariant LinesFor(lines, dtos[..i], shop.items, rows0)
      invariant fresh(set l | l in lines)
    {
      ghost var m := Deduct(rows0, dtos[..i]).value;
      DeductStep(rows0, dtos, i);
      var line := CreateLine(shop, dtos[i], m);
      if line.Err? {
        DeductErrSticks(rows0, dtos, i + 1);
        return Err(line.error);
      }
      LinesForStep(lines, dtos, i, line.value, shop.items, rows0);
      lines := lines + [line.value];
    }
    assert dtos[..|dtos|] == dtos;
    r := Ok(lines);
  }

  /**
   * One request: `findById`, which throws EntityNotFound for an unknown
   * item, then `createOrderItem`. The item table goes from `rows` to what
   * `DeductOne` computes; the line has the item's price in `rows`.
   */
  method CreateLine(shop: Shop, d: OrderDto, ghost rows: map<int, ItemData>) returns (r: Result<OrderItem>)
    requires ItemTableOk(shop.items, shop.nextId) && shop.ItemsAre(rows)
    modifies shop.items.Values
    ensures r.Err? <==> DeductOne(rows, d).Err?
    ensures r.Err? ==> r.error == DeductOne(rows, d).error
    ensures r.Ok? ==>
      && shop.ItemsAre(DeductOne(rows, d).value)
      && d.itemId in shop.items && d.itemId in rows
      && r.value.item == shop.items[d.itemId] && r.value.count == d.count
      && r.value.orderPrice == rows[d.itemId].price
      && fresh(r.value)
  {
    var found := FindById(shop.items, d.itemId);
    if found.Err? {
      return Err(found.error);
    }
    var item := found.value;
    r := OrderItem.CreateOrderItem(item, d.count);
    if r.Ok? {
      forall k | k in shop.items && k != d.itemId
        ensures shop.items[k].Data() == rows[k]
      {
        assert shop.items[k].id != item.id;
      }
    }
  }

  /** What `save` leaves on a new order: its id, member, status ORDER and date, and back-references. */
  ghost predicate Saved(o: Order, id: int, member: Member, now: int)
    reads o, o.orderItems
  {
    && o.id == id && o.member == member && o.orderStatus == ORDER && o.orderDate == now
    && forall l :: l in o.orderItems ==> l.order == o
  }

  /**
   * `orderRepository.save` of a new order: it receives the next id, and the
   * cascade saves each of its lines under the ids after it.
   */
  method Save(shop: Shop, o: Order) returns (r: Result<int>)
    requires shop.Valid() && o !in shop.orders.Values
    requires ItemsOf(o.orderItems) <= shop.items.Values
    modifies shop, o
    ensures shop.Valid()
    ensures r == Ok(old(shop.nextId)) && shop.nextId == old(shop.nextId) + 1 + |o.orderItems|
    ensures r.value !in old(shop.orders) && shop.orders == old(shop.orders)[r.value := o]
    ensures shop.Snapshot() == old(shop.Snapshot()).(orders := shop.orders)
    ensures o.id == r.value
    ensures o.member == old(o.member) && o.orderStatus == old(o.orderStatus)
    ensures o.orderDate == old(o.orderDate) && o.orderItems == old(o.orderItems)
  {
    InsertOrderOk(shop.Snapshot(), shop.nextId, o);
    TablesOkGrow(shop.Snapshot().(orders := shop.orders[shop.nextId := o]), shop.nextId + 1, shop.nextId + 1 + |o.orderItems|);
    o.id := shop.nextId;
    shop.orders, shop.nextId := shop.orders[shop.nextId := o], shop.nextId + 1 + |o.orderItems|;
    r := Ok(o.id);
  }

  /**
   * `order`: one line for one item. The item is looked up first, so an
   * unknown id throws EntityNotFound before anything else; a short stock
   * throws OutOfStock. Either way the transaction saves nothing. It places
   * exactly the order that `PlaceOrders` places for the one-request batch.
   */
  method PlaceOrder(shop: Shop, dto: OrderDto, email: string, now: int) returns (r: Result<int>)
    requires shop.Valid() && shop.Registered(email)
    modifies shop, shop.items.Values
    ensures shop.Valid()
    ensures r.Err? <==> Deduct(old(shop.ItemRows()), [dto]).Err?
    ensures r.Err? ==>
      && r.error == Deduct(old(shop.ItemRows()), [dto]).error
      && shop.Snapshot() == old(shop.Snapshot()) && shop.nextId == old(shop.nextId)
      && shop.ItemsAre(old(shop.ItemRows()))
    ensures r.Ok? ==>
      && r.value == old(shop.nextId) && shop.nextId == old(shop.nextId) + 2
      && shop.ItemsAre(Deduct(old(shop.ItemRows()), [dto]).value)
      && shop.Snapshot() == old(shop.Snapshot()).(orders := shop.orders)
      && r.value !in old(shop.orders) && r.value in shop.orders
      && shop.orders == old(shop.orders)[r.value := shop.orders[r.value]]
      && fresh(shop.orders[r.value])
      && Saved(shop.orders[r.value], r.value, old(shop.MemberOf(email)), now)
      && LinesFor(shop.orders[r.value].orderItems, [dto], shop.items, old(shop.ItemRows()))
  {
    var rows0 := shop.ItemRows();  // what a rollback restores
    DeductSingle(rows0, dto);
    var line := CreateLine(shop, dto, rows0);
    if line.Err? {
      shop.RestoreItems(rows0);
      return Err(line.error);
    }
    var member := shop.MemberOf(email);
    LinesForOne(line.value, dto, shop.items, rows0);
    r := SaveOrder(shop, member, [line.value], now, Deduct(rows0, [dto]).value);
  }

  /**
   * `validateOrder`: whether the order was placed by the member signed in
   * under `email`; an unknown order throws EntityNotFound.
   */
  function ValidateOrder(shop: Shop, orderId: int, email: string): (r: Result<bool>)
    reads shop, shop.orders.Values
    requires MemberTableOk(shop.members, shop.nextId) && shop.Registered(email)
    ensures r.Err? <==> orderId !in shop.orders
    ensures r.Err? ==> r.error == EntityNotFound
    ensures r.Ok? ==> (r.value <==> shop.orders[orderId].member.email == email)
  {
    var current := shop.MemberOf(email);
    match FindById(shop.orders, orderId)
    case Err(e) => Err(e)
    case Ok(order) => Ok(current.email == order.member.email)
  }

  /**
   * `cancelOrder`: an unknown order throws EntityNotFound and nothing
   * changes; otherwise `Order.cancelOrder` runs on it whatever its status,
   * and every item on its lines gets back what the lines hold of it.
   */
  method CancelOrder(shop: Shop, orderId: int) returns (r: Outcome)
    modifies if orderId in shop.orders then {shop.orders[orderId]} + ItemsOf(shop.orders[orderId].orderItems) else {}
    ensures r.Fail? <==> orderId !in shop.orders
    ensures r.Fail? ==> r.error == EntityNotFound
    ensures orderId in shop.orders ==>
      var o := shop.orders[orderId];
      && o.orderStatus == CANCEL && o.orderItems == old(o.orderItems)
      && o.member == old(o.member) && o.orderDate == old(o.orderDate) && o.id == old(o.id)
      && forall it :: it in ItemsOf(o.orderItems) ==>
           it.Data() == old(it.Data()).(stockNumber := Wrap32(old(it.stockNumber) + CountFor(o.orderItems, it)))
  {
    var found := FindById(shop.orders, orderId);
    if found.Err? {
      return Fail(found.error);
    }
    found.value.CancelOrder();
    r := Pass;
  }

  /** One line of a history entry: the item's name, the line's count and captured price, the image. */
  datatype OrderItemDto = OrderItemDto(itemNm: string, count: Int32, orderPrice: Int32, imgUrl: string)

  /** One order of the history page; the date stays a timestamp (its formatting is not modelled). */
  datatype OrderHistDto = OrderHistDto(
    orderId: int, orderDate: int, orderStatus: OrderStatus, orderItemDtoList: seq<OrderItemDto>)

  /** The requested page: its number and its size. */
  datatype Pageable = Pageable(page: int, size: int)

  /** The history page: the entries, the request, and the member's total number of orders. */
  datatype OrderHistPage = OrderHistPage(content: seq<OrderHistDto>, pageable: Pageable, totalCount: int)

  /**
   * `r` is what looking up the image of a line of item `itemId` yields:
   * the URL of the item's representative image, a null dereference in
   * `getImgUrl` when it has none, a result-size error when it has several.
   */
  ghost predicate ImgUrlOf(shop: Shop, itemId: int, r: Result<string>)
    reads shop
  {
    match r
    case Ok(url) =>
      && !shop.SeveralRepImgs(itemId)
      && exists k :: k in shop.itemImgs && IsRepImg(shop.itemImgs[k], itemId) && shop.itemImgs[k].imgUrl == url
    case Err(e) =>
      || (e == NullPointer && shop.NoRepImg(itemId))
      || (e == IncorrectResultSize && shop.SeveralRepImgs(itemId))
  }

  /** The lookup has one outcome only: `ImgUrlOf` is a function of the item. */
  lemma ImgUrlOfUnique(shop: Shop, itemId: int, r1: Result<string>, r2: Result<string>)
    requires ImgUrlOf(shop, itemId, r1) && ImgUrlOf(shop, itemId, r2)
    ensures r1 == r2
  {
    if r1.Ok? && r2.Ok? {
      var a :| a in shop.itemImgs && IsRepImg(shop.itemImgs[a], itemId) && shop.itemImgs[a].imgUrl == r1.value;
      var b :| b in shop.itemImgs && IsRepImg(shop.itemImgs[b], itemId) && shop.itemImgs[b].imgUrl == r2.value;
      if a < b {
        assert shop.SeveralRepImgs(itemId);
      }
    }
  }

  /** A line's image is found exactly when its item has one representative image. */
  lemma ImgUrlFound(shop: Shop, itemId: int, r: Result<string>)
    requires ImgUrlOf(shop, itemId, r)
    ensures r.Ok? <==> shop.OneRepImg(itemId)
  {
    if r.Ok? {
      var a :| a in shop.itemImgs && IsRepImg(shop.itemImgs[a], itemId) && shop.itemImgs[a].imgUrl == r.value;
    }
  }

  /** The image of an order line: `itemImgRepository.findByItemIdAndRepimgYn(id, "Y").getImgUrl()`. */
  method LineImgUrl(shop: Shop, line: OrderItem) returns (r: Result<string>)
    requires ImgTableOk(shop.itemImgs, shop.items, shop.nextId)
    ensures ImgUrlOf(shop, line.item.id, r)
  {
    var found := shop.FindRepImg(line.item.id);
    match found
    case Err(e) => r := Err(e);
    case Ok(None) => r := Err(NullPointer);
    case Ok(Some(img)) => r := Ok(img.imgUrl);
  }

  /** `new OrderItemDto(orderItem, imgUrl)`: the name is read from the item when the page is built. */
  function ItemDto(line: OrderItem, imgUrl: string): (r: OrderItemDto)
    reads line.item
    ensures r.itemNm == line.item.itemNm && r.imgUrl == imgUrl
    ensures r.count == line.count && r.orderPrice == line.orderPrice
  {
    OrderItemDto(line.item.itemNm, line.count, line.orderPrice, imgUrl)
  }

  /** Every line of the order has exactly one representative image. */
  ghost predicate AllImgsFound(shop: Shop, lines: seq<OrderItem>)
    reads shop
  {
    forall j :: 0 <= j < |lines| ==> shop.OneRepImg(lines[j].item.id)
  }

  /** `e` is what the image lookup of the first line without a single representative image throws. */
  ghost predicate FirstImgError(shop: Shop, lines: seq<OrderItem>, e: Exception)
    reads shop
  {
    exists j :: 0 <= j < |lines| && ImgUrlOf(shop, lines[j].item.id, Err(e))
      && forall i :: 0 <= i < j ==> shop.OneRepImg(lines[i].item.id)
  }

  /** The entry `h` shows order `o`: its id, date and status, and one record per line in line order. */
  ghost predicate ShowsOrder(h: OrderHistDto, o: Order, shop: Shop)
    reads shop, o, set l | l in o.orderItems :: l.item
  {
    && h.orderId == o.id && h.orderDate == o.orderDate && h.orderStatus == o.orderStatus
    && |h.orderItemDtoList| == |o.orderItems|
    && forall j :: 0 <= j < |o.orderItems| ==>
         && h.orderItemDtoList[j] == ItemDto(o.orderItems[j], h.orderItemDtoList[j].imgUrl)
         && ImgUrlOf(shop, o.orderItems[j].item.id, Ok(h.orderItemDtoList[j].imgUrl))
  }

  /** The inner loop of `getOrderList`: the entry of one order, or the first failed image lookup. */
  method HistOf(shop: Shop, order: Order) returns (r: Result<OrderHistDto>)
    requires ImgTableOk(shop.itemImgs, shop.items, shop.nextId)
    ensures r.Ok? ==> ShowsOrder(r.value, order, shop) && AllImgsFound(shop, order.orderItems)
    ensures r.Err? ==> FirstImgError(shop, order.orderItems, r.error) && !AllImgsFound(shop, order.orderItems)
  {
    var lines := order.orderItems;
    var dtos: seq<OrderItemDto> := [];
    for j := 0 to |lines|
      invariant |dtos| == j
      invariant forall i :: 0 <= i < j ==> shop.OneRepImg(lines[i].item.id)
      invariant forall i :: 0 <= i < j ==>
        dtos[i] == ItemDto(lines[i], dtos[i].imgUrl) && ImgUrlOf(shop, lines[i].item.id, Ok(dtos[i].imgUrl))
    {
      var url := LineImgUrl(shop, lines[j]);
      ImgUrlFound(shop, lines[j].item.id, url);
      if url.Err? {
        return Err(url.error);
      }
      dtos := dtos + [ItemDto(lines[j], url.value)];
    }
    r := Ok(OrderHistDto(order.id, order.orderDate, order.orderStatus, dtos));
  }

  /**
   * `getOrderList`: one entry per fetched order, in the order fetched. The
   * page of orders (`findOrders`) and the member's order count
   * (`countOrder`) are queries that are not modelled: they are parameters.
   * The first line without a single representative image aborts the page.
   */
  method GetOrderList(shop: Shop, pageable: Pageable, fetched: seq<Order>, totalCount: int)
    returns (r: Result<OrderHistPage>)
    requires ImgTableOk(shop.itemImgs, shop.items, shop.nextId)
    ensures r.Ok? <==> forall i :: 0 <= i < |fetched| ==> AllImgsFound(shop, fetched[i].orderItems)
    ensures r.Ok? ==>
      && r.value.pageable == pageable && r.value.totalCount == totalCount
      && |r.value.content| == |fetched|
      && forall i :: 0 <= i < |fetched| ==> ShowsOrder(r.value.content[i], fetched[i], shop)
    ensures r.Err? ==>
      exists i :: 0 <= i < |fetched| && FirstImgError(shop, fetched[i].orderItems, r.error)
        && forall p :: 0 <= p < i ==> AllImgsFound(shop, fetched[p].orderItems)
  {
    var entries: seq<OrderHistDto> := [];
    for i := 0 to |fetched|
      invariant |entries| == i
      invariant forall p :: 0 <= p < i ==> AllImgsFound(shop, fetched[p].orderItems)
      invariant forall p :: 0 <= p < i ==> ShowsOrder(entries[p], fetched[p], shop)
    {
      var entry := HistOf(shop, fetched[i]);
      if entry.Err? {
        return Err(entry.error);
      }
      entries := entries + [entry.value];
    }
    r := Ok(OrderHistPage(entries, pageable, totalCount));
  }
}
