/**
 * The cart service (`service/CartService.java`): adding an item to the
 * member's cart, the cart page, the owner check, count updates, removal,
 * and ordering selected lines.
 */
module CartService {
  import opened Common
  import opened Seqs
  import opened Queries
  import opened Items
  import opened Members
  import opened Carts
  import opened Orders
  import opened Store
  import opened Batches
  import opened OrderService
  import opened CartItemRepository

  /** The key of member `memberId`'s cart, if it has one. */
  ghost function CartKey(carts: map<int, Cart>, memberId: int): (r: Option<int>)
    ensures r.Some? <==> exists k :: k in carts && carts[k].memberId == memberId
    ensures r.Some? ==> r.value in carts && carts[r.value].memberId == memberId
  {
    if exists k :: k in carts && carts[k].memberId == memberId then
      Some(var k :| k in carts && carts[k].memberId == memberId; k)
    else
      None
  }

  /** The key of the line of item `itemId` in cart `cartId`, if there is one. */
  ghost function LineKey(cartItems: map<int, CartItem>, cartId: int, itemId: int): (r: Option<int>)
    ensures r.Some? <==> exists k :: k in cartItems && cartItems[k].cartId == cartId && cartItems[k].itemId == itemId
    ensures r.Some? ==>
      r.value in cartItems && cartItems[r.value].cartId == cartId && cartItems[r.value].itemId == itemId
  {
    if exists k :: k in cartItems && cartItems[k].cartId == cartId && cartItems[k].itemId == itemId then
      Some(var k :| k in cartItems && cartItems[k].cartId == cartId && cartItems[k].itemId == itemId; k)
    else
      None
  }

  /** The tables after a step of `addCart`, the sequence's next value, and the id of the row it found or saved. */
  datatype Upsert = Upsert(t: Tables, next: int, id: int)

  /**
   * `findByMemberId`, then `Cart.createCart` and `save` when the member has
   * no cart yet: the member's cart, new or old.
   */
  ghost function CartFound(t: Tables, bound: int, memberId: int): (u: Upsert)
    ensures u.t == t.(carts := u.t.carts)
    ensures u.id in u.t.carts && u.t.carts[u.id].memberId == memberId
    ensures CartKey(t.carts, memberId).Some? ==> u == Upsert(t, bound, CartKey(t.carts, memberId).value)
    ensures CartKey(t.carts, memberId).None? ==>
      u == Upsert(t.(carts := t.carts[bound := Cart(bound, memberId)]), bound + 1, bound)
  {
    match CartKey(t.carts, memberId)
    case Some(k) => Upsert(t, bound, k)
    case None => Upsert(t.(carts := t.carts[bound := Cart(bound, memberId)]), bound + 1, bound)
  }

  /**
   * `findByCartIdAndItemId`, then `addCount` on the line found, or a new
   * line saved under the next id: the line of the item in the cart.
   */
  ghost function LineAdded(t: Tables, bound: int, cartId: int, itemId: int, count: Int32, now: int): (u: Upsert)
    ensures u.t == t.(cartItems := u.t.cartItems)
    ensures u.id in u.t.cartItems && u.t.cartItems[u.id].cartId == cartId && u.t.cartItems[u.id].itemId == itemId
    ensures u.t.cartItems.Keys == t.cartItems.Keys + {u.id}
    ensures forall k :: k in t.cartItems && k != u.id ==> u.t.cartItems[k] == t.cartItems[k]
    ensures LineKey(t.cartItems, cartId, itemId).Some? ==>
      && u.id == LineKey(t.cartItems, cartId, itemId).value && u.next == bound
      && u.t.cartItems[u.id] == AddCount(t.cartItems[u.id], count)
    ensures LineKey(t.cartItems, cartId, itemId).None? ==>
      && u.id == bound && u.next == bound + 1
      && u.t.cartItems[u.id] == CartItem(bound, cartId, itemId, count, now)
  {
    match LineKey(t.cartItems, cartId, itemId)
    case Some(k) => Upsert(t.(cartItems := t.cartItems[k := AddCount(t.cartItems[k], count)]), bound, k)
    case None => Upsert(t.(cartItems := t.cartItems[bound := CartItem(bound, cartId, itemId, count, now)]), bound + 1, bound)
  }

  /** `addCart` on the tables: the item's line in the member's cart, the cart created on first use. */
  ghost function CartAdded(t: Tables, bound: int, memberId: int, itemId: int, count: Int32, now: int): Upsert {
    var c := CartFound(t, bound, memberId);
    LineAdded(c.t, c.next, c.id, itemId, count, now)
  }

  /** Finding or creating the member's cart keeps the tables valid, the new cart being its only one. */
  lemma CartFoundOk(t: Tables, bound: int, memberId: int)
    requires TablesOk(t, bound) && memberId in t.members
    ensures TablesOk(CartFound(t, bound, memberId).t, CartFound(t, bound, memberId).next)
  {
  }

  /** Adding to the cart's line of the item, or saving a new one, keeps one line per cart and item. */
  lemma LineAddedOk(t: Tables, bound: int, cartId: int, itemId: int, count: Int32, now: int)
    requires TablesOk(t, bound) && cartId in t.carts && itemId in t.items
    ensures TablesOk(LineAdded(t, bound, cartId, itemId, count, now).t, LineAdded(t, bound, cartId, itemId, count, now).next)
  {
    match LineKey(t.cartItems, cartId, itemId)
    case Some(k) => LineAddedToFound(t, bound, t.cartItems[k], count, now);
    case None => LineAddedNew(t, bound, cartId, itemId, count, now);
  }

  /** `addCart` keeps the database valid. */
  lemma CartAddedOk(t: Tables, bound: int, memberId: int, itemId: int, count: Int32, now: int)
    requires TablesOk(t, bound) && memberId in t.members && itemId in t.items
    ensures TablesOk(CartAdded(t, bound, memberId, itemId, count, now).t, CartAdded(t, bound, memberId, itemId, count, now).next)
  {
    CartFoundOk(t, bound, memberId);
    var c := CartFound(t, bound, memberId);
    LineAddedOk(c.t, c.next, c.id, itemId, count, now);
  }

  /**
   * Adding the same item twice leaves one line for it, in the member's one
   * cart, whose count is the two counts added on a Java `int`; the second
   * call returns the first call's line id and saves nothing.
   */
  lemma {:induction false} AddCartTwice(
    t: Tables, bound: int, memberId: int, itemId: int, c1: Int32, c2: Int32, now1: int, now2: int)
    requires TablesOk(t, bound) && memberId in t.members && itemId in t.items
    ensures var first := CartAdded(t, bound, memberId, itemId, c1, now1);
      var second := CartAdded(first.t, first.next, memberId, itemId, c2, now2);
      && second.id == first.id && second.next == first.next
      && second.t.cartItems[second.id].count == Add32(first.t.cartItems[first.id].count, c2)
      && second.t.cartItems == first.t.cartItems[first.id := AddCount(first.t.cartItems[first.id], c2)]
  {
    var first := CartAdded(t, bound, memberId, itemId, c1, now1);
    CartAddedOk(t, bound, memberId, itemId, c1, now1);
    var cart := CartFound(t, bound, memberId);
    var again := CartFound(first.t, first.next, memberId);
    assert CartKey(first.t.carts, memberId) == Some(cart.id);
    assert again == Upsert(first.t, first.next, cart.id);
    assert LineKey(first.t.cartItems, cart.id, itemId) == Some(first.id);
  }

  /** The member's cart as the service finds or creates it. */
  method CartFor(shop: Shop, memberId: int) returns (cart: Cart)
    requires shop.Valid() && memberId in shop.members
    modifies shop
    ensures shop.Valid()
    ensures Upsert(shop.Snapshot(), shop.nextId, cart.id) == CartFound(old(shop.Snapshot()), old(shop.nextId), memberId)
    ensures cart.id in shop.carts && shop.carts[cart.id] == cart
  {
    ghost var t0 := shop.Snapshot();
    CartFoundOk(t0, shop.nextId, memberId);
    var found := shop.FindCartByMember(memberId);
    if found.value.Some? {
      cart := found.value.value;
    } else {
      cart := Cart(shop.nextId, memberId);
      shop.carts, shop.nextId := shop.carts[cart.id := cart], shop.nextId + 1;
    }
  }

  /** The item's line in cart `cartId`, its count raised, or a new line saved. */
  method LineFor(shop: Shop, cartId: int, itemId: int, count: Int32, now: int) returns (id: int)
    requires shop.Valid() && cartId in shop.carts && itemId in shop.items
    modifies shop
    ensures shop.Valid()
    ensures Upsert(shop.Snapshot(), shop.nextId, id) == LineAdded(old(shop.Snapshot()), old(shop.nextId), cartId, itemId, count, now)
  {
    var saved := shop.FindCartItem(cartId, itemId);
    if saved.value.Some? {
      var line := saved.value.value;
      LineAddedToFound(shop.Snapshot(), shop.nextId, line, count, now);
      shop.cartItems := shop.cartItems[line.id := AddCount(line, count)];
      id := line.id;
    } else {
      LineAddedNew(shop.Snapshot(), shop.nextId, cartId, itemId, count, now);
      id := shop.nextId;
      shop.cartItems, shop.nextId := shop.cartItems[id := CartItem(id, cartId, itemId, count, now)], shop.nextId + 1;
    }
  }

  /** With a line for the item already in the cart, `LineAdded` raises that line's count. */
  lemma LineAddedToFound(t: Tables, bound: int, line: CartItem, count: Int32, now: int)
    requires TablesOk(t, bound) && line.id in t.cartItems && t.cartItems[line.id] == line
    ensures LineAdded(t, bound, line.cartId, line.itemId, count, now)
      == Upsert(t.(cartItems := t.cartItems[line.id := AddCount(line, count)]), bound, line.id)
    ensures TablesOk(t.(cartItems := t.cartItems[line.id := AddCount(line, count)]), bound)
  {
    assert LineKey(t.cartItems, line.cartId, line.itemId) == Some(line.id);
  }

  /** With no line for the item in the cart, `LineAdded` saves one under the next id. */
  lemma LineAddedNew(t: Tables, bound: int, cartId: int, itemId: int, count: Int32, now: int)
    requires TablesOk(t, bound) && cartId in t.carts && itemId in t.items
    requires forall k :: k in t.cartItems ==> !(t.cartItems[k].cartId == cartId && t.cartItems[k].itemId == itemId)
    ensures LineAdded(t, bound, cartId, itemId, count, now)
      == Upsert(t.(cartItems := t.cartItems[bound := CartItem(bound, cartId, itemId, count, now)]), bound + 1, bound)
    ensures TablesOk(t.(cartItems := t.cartItems[bound := CartItem(bound, cartId, itemId, count, now)]), bound + 1)
  {
    var lines := t.cartItems[bound := CartItem(bound, cartId, itemId, count, now)];
    forall a, b | a in lines && b in lines && SameSlot(lines[a], lines[b]) ensures a == b {
      if a == bound || b == bound {
        assert lines[a].cartId == cartId && lines[a].itemId == itemId;
      }
    }
  }

  /**
   * `addCart`: EntityNotFound, and nothing saved, for an unknown item;
   * otherwise the database becomes `CartAdded` of the old one and the id
   * of the item's line is returned.
   */
  method AddCart(shop: Shop, itemId: int, count: Int32, email: string, now: int) returns (r: Result<int>)
    requires shop.Valid() && shop.Registered(email)
    modifies shop
    ensures shop.Valid()
    ensures r.Err? <==> itemId !in old(shop.items)
    ensures r.Err? ==> r.error == EntityNotFound && shop.Snapshot() == old(shop.Snapshot()) && shop.nextId == old(shop.nextId)
    ensures r.Ok? ==>
      Upsert(shop.Snapshot(), shop.nextId, r.value)
        == CartAdded(old(shop.Snapshot()), old(shop.nextId), old(shop.MemberOf(email)).id, itemId, count, now)
  {
    var item := FindById(shop.items, itemId);
    if item.Err? {
      return Err(item.error);
    }
    var member := shop.MemberOf(email);
    var cart := CartFor(shop, member.id);
    var id := LineFor(shop, cart.id, item.value.id, count, now);
    r := Ok(id);
  }

  /** Removing cart lines keeps the database valid: nothing refers to a line. */
  lemma LinesRemovedOk(t: Tables, bound: int, gone: set<int>)
    requires TablesOk(t, bound)
    ensures TablesOk(t.(cartItems := t.cartItems - gone), bound)
  {
  }

  /** Changing a line's count keeps the database valid. */
  lemma CountUpdatedOk(t: Tables, bound: int, id: int, count: Int32)
    requires TablesOk(t, bound) && id in t.cartItems
    ensures TablesOk(t.(cartItems := t.cartItems[id := UpdateCount(t.cartItems[id], count)]), bound)
  {
  }

  /**
   * `validateCartItem`: EntityNotFound for an unknown line; otherwise
   * whether the member logged in under `email` owns the cart holding it.
   * Emails are unique, so comparing them compares the members.
   */
  function ValidateCartItem(shop: Shop, cartItemId: int, email: string): (r: Result<bool>)
    reads shop
    requires shop.Valid() && shop.Registered(email)
    ensures r.Err? <==> cartItemId !in shop.cartItems
    ensures r.Err? ==> r.error == EntityNotFound
    ensures r.Ok? ==> (r.value <==> shop.carts[shop.cartItems[cartItemId].cartId].memberId == shop.MemberOf(email).id)
  {
    match FindById(shop.cartItems, cartItemId)
    case Err(e) => Err(e)
    case Ok(line) =>
      var savedMember := shop.members[shop.carts[line.cartId].memberId];
      Ok(shop.MemberOf(email).email == savedMember.email)
  }

  /** `updateCartItemCount`: EntityNotFound for an unknown line, otherwise its count is replaced. */
  method UpdateCartItemCount(shop: Shop, cartItemId: int, count: Int32) returns (r: Outcome)
    requires shop.Valid()
    modifies shop
    ensures shop.Valid() && shop.nextId == old(shop.nextId)
    ensures r.Fail? <==> cartItemId !in old(shop.cartItems)
    ensures r.Fail? ==> r.error == EntityNotFound && shop.Snapshot() == old(shop.Snapshot())
    ensures r.Pass? ==>
      shop.Snapshot() == old(shop.Snapshot()).(cartItems := old(shop.cartItems)[cartItemId := UpdateCount(old(shop.cartItems)[cartItemId], count)])
  {
    var line := FindById(shop.cartItems, cartItemId);
    if line.Err? {
      return Fail(line.error);
    }
    CountUpdatedOk(shop.Snapshot(), shop.nextId, cartItemId, count);
    shop.cartItems := shop.cartItems[cartItemId := UpdateCount(line.value, count)];
    r := Pass;
  }

  /** `deleteCartItem`: EntityNotFound for an unknown line, otherwise the line is removed. */
  method DeleteCartItem(shop: Shop, cartItemId: int) returns (r: Outcome)
    requires shop.Valid()
    modifies shop
    ensures shop.Valid() && shop.nextId == old(shop.nextId)
    ensures r.Fail? <==> cartItemId !in old(shop.cartItems)
    ensures r.Fail? ==> r.error == EntityNotFound && shop.Snapshot() == old(shop.Snapshot())
    ensures r.Pass? ==> shop.Snapshot() == old(shop.Snapshot()).(cartItems := old(shop.cartItems) - {cartItemId})
  {
    var line := FindById(shop.cartItems, cartItemId);
    if line.Err? {
      return Fail(line.error);
    }
    LinesRemovedOk(shop.Snapshot(), shop.nextId, {cartItemId});
    shop.cartItems := shop.cartItems - {cartItemId};
    r := Pass;
  }

  /**
   * `getCartList`: the cart page of the member logged in under `email`,
   * empty when the member never added anything. `CartPage`,
   * `CartPageNewestFirst` and `CartPageComplete` state what the page shows.
   */
  method GetCartList(shop: Shop, email: string) returns (r: seq<CartDetail>)
    requires shop.Valid() && shop.Registered(email)
    ensures CartKey(shop.carts, shop.MemberOf(email).id).None? ==> r == []
    ensures CartKey(shop.carts, shop.MemberOf(email).id).Some? ==>
      r == FindCartDetailDtoList(
        shop.cartItems, shop.itemImgs, shop.ItemRows(), shop.nextId, CartKey(shop.carts, shop.MemberOf(email).id).value)
    ensures forall i :: 0 <= i < |r| ==>
      && r[i].cartItemId in shop.cartItems
      && shop.carts[shop.cartItems[r[i].cartItemId].cartId].memberId == shop.MemberOf(email).id
  {
    var member := shop.MemberOf(email);
    var cart := shop.FindCartByMember(member.id);
    if cart.value.None? {
      return [];
    }
    var rows := shop.ItemRows();
    assert CartKey(shop.carts, member.id) == Some(cart.value.value.id);
    CartPage(shop.cartItems, shop.itemImgs, rows, shop.nextId, cart.value.value.id);
    r := FindCartDetailDtoList(shop.cartItems, shop.itemImgs, rows, shop.nextId, cart.value.value.id);
  }

  /** The records of the cart page of `cartId`, row by row, are the lines of the joined rows. */
  lemma RecordsAreLines(
    cartItems: map<int, CartItem>, itemImgs: map<int, ItemImg>, rows: map<int, ItemData>, bound: nat, cartId: int)
    requires forall k :: k in cartItems ==> cartItems[k].id == k && cartItems[k].itemId in rows
    ensures var r := FindCartDetailDtoList(cartItems, itemImgs, rows, bound, cartId);
      forall i :: 0 <= i < |r| ==>
        r[i].cartItemId in cartItems && cartItems[r[i].cartItemId] == CartDetailRows(cartItems, itemImgs, bound, cartId)[i].line
  {
    var joined := CartDetailRows(cartItems, itemImgs, bound, cartId);
    var r := FindCartDetailDtoList(cartItems, itemImgs, rows, bound, cartId);
    forall i | 0 <= i < |r|
      ensures r[i].cartItemId in cartItems && cartItems[r[i].cartItemId] == joined[i].line
    {
      assert joined[i] in joined;
      var k :| k in cartItems && 0 <= k < bound && cartItems[k] == joined[i].line;
    }
  }

  /**
   * What the cart page of cart `cartId` shows: each record is a line of
   * that cart with its count and its item's current name and price.
   */
  lemma CartPage(
    cartItems: map<int, CartItem>, itemImgs: map<int, ItemImg>, rows: map<int, ItemData>, bound: nat, cartId: int)
    requires forall k :: k in cartItems ==> cartItems[k].id == k && cartItems[k].itemId in rows
    ensures var r := FindCartDetailDtoList(cartItems, itemImgs, rows, bound, cartId);
      forall i :: 0 <= i < |r| ==>
        && r[i].cartItemId in cartItems
        && var line := cartItems[r[i].cartItemId];
        && line.cartId == cartId && r[i].count == line.count
        && r[i].itemNm == rows[line.itemId].itemNm && r[i].price == rows[line.itemId].price
  {
    var joined := CartDetailRows(cartItems, itemImgs, bound, cartId);
    RecordsAreLines(cartItems, itemImgs, rows, bound, cartId);
    forall i | 0 <= i < |joined| ensures joined[i].line.cartId == cartId {
      assert joined[i] in joined;
    }
  }

  /** The cart page lists the newest line first. */
  lemma CartPageNewestFirst(
    cartItems: map<int, CartItem>, itemImgs: map<int, ItemImg>, rows: map<int, ItemData>, bound: nat, cartId: int)
    requires forall k :: k in cartItems ==> cartItems[k].id == k && cartItems[k].itemId in rows
    ensures var r := FindCartDetailDtoList(cartItems, itemImgs, rows, bound, cartId);
      forall i, j :: 0 <= i < j < |r| ==>
        cartItems[r[i].cartItemId].regTime >= cartItems[r[j].cartItemId].regTime
  {
    RecordsAreLines(cartItems, itemImgs, rows, bound, cartId);
  }

  /** Every line of the cart whose item has a representative image is on the cart page, with that image. */
  lemma CartPageComplete(
    cartItems: map<int, CartItem>, itemImgs: map<int, ItemImg>, rows: map<int, ItemData>, bound: nat, cartId: int)
    requires forall k :: k in cartItems ==> cartItems[k].id == k && cartItems[k].itemId in rows
    ensures var r := FindCartDetailDtoList(cartItems, itemImgs, rows, bound, cartId);
      forall k, m :: k in cartItems && 0 <= k < bound && cartItems[k].cartId == cartId
        && m in itemImgs && 0 <= m < bound && IsRepImg(itemImgs[m], cartItems[k].itemId)
        ==> exists i :: 0 <= i < |r| && r[i].cartItemId == k && r[i].imgUrl == itemImgs[m].imgUrl
  {
    var joined := CartDetailRows(cartItems, itemImgs, bound, cartId);
    var r := FindCartDetailDtoList(cartItems, itemImgs, rows, bound, cartId);
    forall k, m | k in cartItems && 0 <= k < bound && cartItems[k].cartId == cartId
        && m in itemImgs && 0 <= m < bound && IsRepImg(itemImgs[m], cartItems[k].itemId)
      ensures exists i :: 0 <= i < |r| && r[i].cartItemId == k && r[i].imgUrl == itemImgs[m].imgUrl
    {
      var x := JoinRow(cartItems[k], itemImgs[m]);
      assert Stored(x.line, cartItems, bound) && Stored(x.img, itemImgs, bound);
      assert x in joined;
      var i :| 0 <= i < |joined| && joined[i] == x;
      assert r[i] == Detail(x, rows);
    }
  }

  /** Every selected line is in the cart table. */
  ghost predicate AllPresent(cartItems: map<int, CartItem>, ids: seq<int>) {
    forall i :: 0 <= i < |ids| ==> ids[i] in cartItems
  }

  /** The selected line ids. */
  function Selected(ids: seq<int>): set<int> {
    set i | 0 <= i < |ids| :: ids[i]
  }

  /** No line is selected twice. */
  ghost predicate Distinct(ids: seq<int>) {
    forall i, j :: 0 <= i < j < |ids| ==> ids[i] != ids[j]
  }

  /** The order requests built from the selected lines: each line's item and count. */
  function DtosFor(cartItems: map<int, CartItem>, ids: seq<int>): (r: seq<OrderDto>)
    requires forall i :: 0 <= i < |ids| ==> ids[i] in cartItems
    ensures |r| == |ids|
    ensures forall i :: 0 <= i < |ids| ==> r[i] == OrderDto(cartItems[ids[i]].itemId, cartItems[ids[i]].count)
  {
    seq(|ids|, i requires 0 <= i < |ids| => OrderDto(cartItems[ids[i]].itemId, cartItems[ids[i]].count))
  }

  /** The first loop of `orderCartItem`: an order request per selected line, or EntityNotFound. */
  method CartOrderDtos(shop: Shop, ids: seq<int>) returns (r: Result<seq<OrderDto>>)
    ensures r.Ok? <==> AllPresent(shop.cartItems, ids)
    ensures r.Ok? ==> r.value == DtosFor(shop.cartItems, ids)
    ensures r.Err? ==> r.error == EntityNotFound
  {
    var dtos: seq<OrderDto> := [];
    for i := 0 to |ids|
      invariant AllPresent(shop.cartItems, ids[..i])
      invariant |dtos| == i
      invariant forall j :: 0 <= j < i ==> dtos[j] == OrderDto(shop.cartItems[ids[j]].itemId, shop.cartItems[ids[j]].count)
    {
      var line := FindById(shop.cartItems, ids[i]);
      if line.Err? {
        return Err(line.error);
      }
      dtos := dtos + [OrderDto(line.value.itemId, line.value.count)];
    }
    assert ids[..|ids|] == ids;
    r := Ok(dtos);
  }

  /**
   * The second loop of `orderCartItem`: deletes the selected lines one by
   * one; a line selected twice is gone when it comes round again, which
   * throws EntityNotFound.
   */
  method RemoveLines(shop: Shop, ids: seq<int>) returns (r: Outcome)
    requires AllPresent(shop.cartItems, ids)
    modifies shop
    ensures shop.Snapshot() == old(shop.Snapshot()).(cartItems := shop.cartItems) && shop.nextId == old(shop.nextId)
    ensures r.Pass? <==> Distinct(ids)
    ensures r.Pass? ==> shop.cartItems == old(shop.cartItems) - Selected(ids)
    ensures r.Fail? ==> r.error == EntityNotFound
  {
    ghost var lines0 := shop.cartItems;
    for i := 0 to |ids|
      invariant shop.Snapshot() == old(shop.Snapshot()).(cartItems := shop.cartItems) && shop.nextId == old(shop.nextId)
      invariant Distinct(ids[..i])
      invariant shop.cartItems == lines0 - Selected(ids[..i])
    {
      var line := FindById(shop.cartItems, ids[i]);
      if line.Err? {
        var j :| 0 <= j < i && ids[j] == ids[i];
        return Fail(line.error);
      }
      shop.cartItems := shop.cartItems - {ids[i]};
      assert Selected(ids[..i + 1]) == Selected(ids[..i]) + {ids[i]} by {
        assert ids[..i + 1] == ids[..i] + [ids[i]];
      }
    }
    assert ids[..|ids|] == ids;
    r := Pass;
  }

  /**
   * `orderCartItem`: orders the selected lines' items and counts through
   * `orders`, then deletes the lines. The order placed is the principal's,
   * with one line per selected cart line, in selection order, for that
   * line's item and count. One transaction: a failure anywhere
   * leaves the tables as they were, though the ids drawn from the sequence
   * for the order and its lines stay drawn.
   */
  method OrderCartItem(shop: Shop, ids: seq<int>, email: string, now: int) returns (r: Result<int>)
    requires shop.Valid() && shop.Registered(email)
    modifies shop, shop.items.Values
    ensures shop.Valid()
    ensures !AllPresent(old(shop.cartItems), ids) ==>
      && r == Err(EntityNotFound)
      && shop.Snapshot() == old(shop.Snapshot()) && shop.nextId == old(shop.nextId)
      && shop.ItemsAre(old(shop.ItemRows()))
    ensures AllPresent(old(shop.cartItems), ids) ==>
      OrderedLines(r, ids, DtosFor(old(shop.cartItems), ids), old(shop.Snapshot()), old(shop.nextId), old(shop.ItemRows()), shop)
    ensures AllPresent(old(shop.cartItems), ids) && r.Ok? ==>
      && r.value in shop.orders
      && Saved(shop.orders[r.value], r.value, old(shop.MemberOf(email)), now)
      && LinesFor(shop.orders[r.value].orderItems, DtosFor(old(shop.cartItems), ids), shop.items, old(shop.ItemRows()))
  {
    var dtos := CartOrderDtos(shop, ids);
    if dtos.Err? {
      return Err(dtos.error);
    }
    r := OrderLines(shop, ids, dtos.value, email, now);
  }

  /**
   * The outcome of ordering the selected lines `ids` through the requests
   * `dtos`, from tables `t0`, sequence value `b0` and item rows `rows0`:
   * a failed stock deduction changes nothing; a line selected twice undoes
   * the order and the deduction, though the ids of the order and its lines
   * stay drawn; otherwise the order is saved under `b0`, its lines under
   * the `|dtos|` ids after it, the stock deducted, and the lines deleted.
   */
  ghost predicate OrderedLines(
    r: Result<int>, ids: seq<int>, dtos: seq<OrderDto>, t0: Tables, b0: int, rows0: map<int, ItemData>, shop: Shop)
    reads shop, shop.items.Values
  {
    if Deduct(rows0, dtos).Err? then
      && r == Err(Deduct(rows0, dtos).error)
      && shop.Snapshot() == t0 && shop.nextId == b0 && shop.ItemsAre(rows0)
    else if !Distinct(ids) then
      && r == Err(EntityNotFound)
      && shop.Snapshot() == t0 && shop.nextId == b0 + 1 + |dtos| && shop.ItemsAre(rows0)
    else
      && r == Ok(b0) && shop.nextId == b0 + 1 + |dtos|
      && shop.ItemsAre(Deduct(rows0, dtos).value)
      && b0 !in t0.orders && b0 in shop.orders && shop.orders == t0.orders[b0 := shop.orders[b0]]
      && shop.Snapshot() == t0.(cartItems := t0.cartItems - Selected(ids), orders := shop.orders)
  }

  /** `orders` on the built requests, then the deletion of the selected lines, in one transaction. */
  method OrderLines(shop: Shop, ids: seq<int>, dtos: seq<OrderDto>, email: string, now: int) returns (r: Result<int>)
    requires shop.Valid() && shop.Registered(email) && AllPresent(shop.cartItems, ids)
    modifies shop, shop.items.Values
    ensures shop.Valid()
    ensures OrderedLines(r, ids, dtos, old(shop.Snapshot()), old(shop.nextId), old(shop.ItemRows()), shop)
    ensures r.Ok? ==>
      && r.value in shop.orders
      && Saved(shop.orders[r.value], r.value, old(shop.MemberOf(email)), now)
      && LinesFor(shop.orders[r.value].orderItems, dtos, shop.items, old(shop.ItemRows()))
  {
    var rows0, lines0, orders0 := shop.ItemRows(), shop.cartItems, shop.orders;
    ghost var t0, b0 := shop.Snapshot(), shop.nextId;
    var placed := PlaceOrders(shop, dtos, email, now);
    if placed.Err? {
      return placed;
    }
    ghost var o, items1 := shop.orders[b0], shop.items;
    ghost var member := old(shop.MemberOf(email));
    assert Saved(o, b0, member, now) && LinesFor(o.orderItems, dtos, items1, rows0);
    var removed := RemoveOrdered(shop, ids, lines0, orders0, rows0, t0, b0, Deduct(rows0, dtos).value, o);
    if removed.Fail? {
      return Err(removed.error);
    }
    assert shop.orders[b0] == o && shop.items == items1;
    r := placed;
  }

  /**
   * The second loop of `orderCartItem` after the order is placed; when it
   * throws, the rollback restores the cart lines, the orders and the item
   * rows of tables `t0`. Deleting the lines leaves the order just placed,
   * `placed`, and its lines as they are.
   */
  method RemoveOrdered(
    shop: Shop, ids: seq<int>, lines0: map<int, CartItem>, orders0: map<int, Order>, rows0: map<int, ItemData>,
    ghost t0: Tables, ghost b0: int, ghost rows1: map<int, ItemData>, ghost placed: Order)
    returns (r: Outcome)
    requires shop.Valid() && TablesOk(t0, b0) && b0 <= shop.nextId
    requires t0.cartItems == lines0 && t0.orders == orders0 && shop.Snapshot() == t0.(orders := shop.orders)
    requires AllPresent(shop.cartItems, ids) && shop.ItemsAre(rows1)
    requires shop.items.Keys == rows0.Keys && forall k :: k in rows0 ==> rows0[k].id == k
    modifies shop, shop.items.Values
    ensures shop.Valid() && shop.nextId == old(shop.nextId)
    ensures r.Pass? <==> Distinct(ids)
    ensures r.Pass? ==> shop.Snapshot() == old(shop.Snapshot()).(cartItems := lines0 - Selected(ids)) && shop.ItemsAre(rows1)
    ensures r.Pass? ==> unchanged(placed) && unchanged(set l | l in placed.orderItems)
    ensures r.Fail? ==> r.error == EntityNotFound && shop.Snapshot() == t0 && shop.ItemsAre(rows0)
  {
    ghost var t1 := shop.Snapshot();
    r := RemoveLines(shop, ids);
    if r.Fail? {
      shop.cartItems, shop.orders := lines0, orders0;
      assert shop.Snapshot() == t0;
      TablesOkGrow(t0, b0, shop.nextId);
      assert shop.Valid();
      shop.RestoreItems(rows0);
      return;
    }
    LinesRemovedOk(t1, shop.nextId, Selected(ids));
    assert shop.Snapshot() == t1.(cartItems := t1.cartItems - Selected(ids));
  }
}
