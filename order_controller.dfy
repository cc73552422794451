/**
 * The endpoints of `controller/OrderController.java`: placing one order,
 * the order history page, and cancelling an order after checking who
 * placed it.
 */
module OrderController {
  import opened Common
  import opened Items
  import opened Orders
  import opened Batches
  import opened Store
  import opened OrderService
  import opened Web

  const MSG_NO_CANCEL_RIGHT: string := "주문 취소 권한이 없습니다."

  /** The history shows four orders a page. */
  const HIST_PAGE_SIZE: int := 4

  /** The number of page links the history view offers. */
  const MAX_PAGE: int := 5

  /** What `orderHist` hands to its view: the page of orders, the page number, the number of page links. */
  datatype HistView = HistView(orders: OrderHistPage, page: int, maxPage: int)

  /**
   * `order` (POST /order): binding errors answer 400 with the joined field
   * messages; otherwise the service places the order, an exception from it
   * answers 400 and nothing changes, and success answers 200 with the new
   * order's id.
   */
  method Order(shop: Shop, dto: OrderDto, fieldErrors: seq<string>, email: string, now: int)
    returns (resp: Response)
    requires shop.Valid() && shop.Registered(email)
    modifies shop, shop.items.Values
    ensures shop.Valid()
    ensures |fieldErrors| > 0 ==>
      && resp == Response(Text(Concat(fieldErrors)), BAD_REQUEST)
      && shop.Snapshot() == old(shop.Snapshot()) && shop.nextId == old(shop.nextId)
      && shop.ItemsAre(old(shop.ItemRows()))
    ensures |fieldErrors| == 0 && Deduct(old(shop.ItemRows()), [dto]).Err? ==>
      && resp == Response(Thrown(Deduct(old(shop.ItemRows()), [dto]).error), BAD_REQUEST)
      && shop.Snapshot() == old(shop.Snapshot()) && shop.nextId == old(shop.nextId)
      && shop.ItemsAre(old(shop.ItemRows()))
    ensures |fieldErrors| == 0 && Deduct(old(shop.ItemRows()), [dto]).Ok? ==>
      && resp == Response(Id(old(shop.nextId)), OK)
      && shop.ItemsAre(Deduct(old(shop.ItemRows()), [dto]).value)
      && shop.Snapshot() == old(shop.Snapshot()).(orders := shop.orders)
      && old(shop.nextId) !in old(shop.orders) && old(shop.nextId) in shop.orders
      && shop.orders == old(shop.orders)[old(shop.nextId) := shop.orders[old(shop.nextId)]]
      && fresh(shop.orders[old(shop.nextId)])
      && Saved(shop.orders[old(shop.nextId)], old(shop.nextId), old(shop.MemberOf(email)), now)
      && LinesFor(shop.orders[old(shop.nextId)].orderItems, [dto], shop.items, old(shop.ItemRows()))
  {
    if |fieldErrors| > 0 {
      var text := JoinMessages(fieldErrors);
      return Response(Text(text), BAD_REQUEST);
    }
    var r := PlaceOrder(shop, dto, email, now);
    if r.Err? {
      return Response(Thrown(r.error), BAD_REQUEST);
    }
    resp := Response(Id(r.value), OK);
  }

  /**
   * `PageRequest.of(page, 4)` for the optional page number: page 0 when
   * absent, and an illegal-argument exception for a negative one.
   */
  function PageOf(page: Option<int>): (r: Result<Pageable>)
    ensures r.Ok? <==> page.None? || page.value >= 0
    ensures r.Err? ==> r.error == IllegalArgument
    ensures r.Ok? ==> r.value.size == HIST_PAGE_SIZE && r.value.page >= 0
    ensures r.Ok? && page.Some? ==> r.value.page == page.value
  {
    var number := if page.Some? then page.value else 0;
    if number < 0 then Err(IllegalArgument) else Ok(Pageable(number, HIST_PAGE_SIZE))
  }

  /** Without a page number the history opens on its first page. */
  lemma NoPageIsFirstPage()
    ensures PageOf(None) == Ok(Pageable(0, HIST_PAGE_SIZE))
  {
  }

  /**
   * `orderHist` (GET /orders, /orders/{page}): the page request, then the
   * member's orders on that page. The orders the repository returns for
   * that page, and the member's order count, are parameters. Nothing is
   * caught: an exception ends the request.
   */
  method OrderHist(shop: Shop, page: Option<int>, fetched: seq<Order>, totalCount: int) returns (r: Result<HistView>)
    requires ImgTableOk(shop.itemImgs, shop.items, shop.nextId)
    ensures PageOf(page).Err? ==> r == Err(IllegalArgument)
    ensures PageOf(page).Ok? ==>
      (r.Ok? <==> forall i :: 0 <= i < |fetched| ==> AllImgsFound(shop, fetched[i].orderItems))
    ensures r.Ok? ==>
      && r.value.orders.pageable == PageOf(page).value
      && r.value.page == r.value.orders.pageable.page && r.value.maxPage == MAX_PAGE
      && r.value.orders.totalCount == totalCount
      && |r.value.orders.content| == |fetched|
      && forall i :: 0 <= i < |fetched| ==> ShowsOrder(r.value.orders.content[i], fetched[i], shop)
  {
    var pageable := PageOf(page);
    if pageable.Err? {
      return Err(pageable.error);
    }
    var orders := GetOrderList(shop, pageable.value, fetched, totalCount);
    if orders.Err? {
      return Err(orders.error);
    }
    r := Ok(HistView(orders.value, pageable.value.page, MAX_PAGE));
  }

  /** The member signed in under `email` placed order `orderId`. */
  predicate PlacedBy(shop: Shop, orderId: int, email: string)
    reads shop, shop.orders.Values
  {
    orderId in shop.orders && shop.orders[orderId].member.email == email
  }

  /**
   * `cancelOrder` (POST /order/{orderId}/cancel): an unknown order makes
   * `validateOrder` throw, uncaught (500); an order of another member
   * answers 403; both change nothing. Otherwise the order is cancelled,
   * its items get their stock back, and the answer is 200 with its id.
   */
  method CancelOrder(shop: Shop, orderId: int, email: string) returns (resp: Response)
    requires MemberTableOk(shop.members, shop.nextId) && shop.Registered(email)
    modifies if PlacedBy(shop, orderId, email) then {shop.orders[orderId]} + ItemsOf(shop.orders[orderId].orderItems) else {}
    ensures orderId !in shop.orders ==> resp == Response(Thrown(EntityNotFound), INTERNAL_SERVER_ERROR)
    ensures orderId in shop.orders && !old(PlacedBy(shop, orderId, email)) ==>
      resp == Response(Text(MSG_NO_CANCEL_RIGHT), FORBIDDEN)
    ensures old(PlacedBy(shop, orderId, email)) ==>
      var o := shop.orders[orderId];
      && resp == Response(Id(orderId), OK)
      && o.orderStatus == CANCEL && o.orderItems == old(o.orderItems)
      && o.member == old(o.member) && o.orderDate == old(o.orderDate) && o.id == old(o.id)
      && forall it :: it in ItemsOf(o.orderItems) ==>
           it.Data() == old(it.Data()).(stockNumber := Wrap32(old(it.stockNumber) + CountFor(o.orderItems, it)))
  {
    var owner := ValidateOrder(shop, orderId, email);
    if owner.Err? {
      return Response(Thrown(owner.error), INTERNAL_SERVER_ERROR);
    }
    if !owner.value {
      return Response(Text(MSG_NO_CANCEL_RIGHT), FORBIDDEN);
    }
    var done := OrderService.CancelOrder(shop, orderId);
    resp := Response(Id(orderId), OK);
  }
}
