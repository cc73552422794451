/**
 * The REST endpoints of `controller/CartController.java`: the guards each
 * runs before calling `CartService`, and the response it returns.
 */
module CartController {
  import opened Common
  import opened Items
  import opened Carts
  import opened Store
  import opened OrderService
  import opened CartService
  import opened Web

  const MSG_MIN_COUNT: string := "최소 1개 이상 담아주세요."
  const MSG_NO_EDIT_RIGHT: string := "수정 권한이 없습니다."
  const MSG_NO_SELECTION: string := "주문할 상품을 선택해주세요."
  const MSG_NO_ORDER_RIGHT: string := "주문 권한이 없습니다."

  /** The add-to-cart request body. */
  datatype CartItemDto = CartItemDto(itemId: int, count: Int32)

  /** The member signed in under `email` owns cart line `cartItemId`. */
  ghost predicate Owns(shop: Shop, email: string, cartItemId: int)
    reads shop
    requires shop.Valid() && shop.Registered(email)
  {
    cartItemId in shop.cartItems && shop.carts[shop.cartItems[cartItemId].cartId].memberId == shop.MemberOf(email).id
  }

  /**
   * `order` (POST /cart): binding errors answer 400 with the joined field
   * messages and add nothing; otherwise `addCart` runs, an exception from
   * it answers 400, and success answers 200 with the line id.
   */
  method AddToCart(shop: Shop, dto: CartItemDto, fieldErrors: seq<string>, email: string, now: int)
    returns (resp: Response)
    requires shop.Valid() && shop.Registered(email)
    modifies shop
    ensures shop.Valid()
    ensures |fieldErrors| > 0 ==>
      resp == Response(Text(Concat(fieldErrors)), BAD_REQUEST)
      && shop.Snapshot() == old(shop.Snapshot()) && shop.nextId == old(shop.nextId)
    ensures |fieldErrors| == 0 && dto.itemId !in old(shop.items) ==>
      resp == Response(Thrown(EntityNotFound), BAD_REQUEST)
      && shop.Snapshot() == old(shop.Snapshot()) && shop.nextId == old(shop.nextId)
    ensures |fieldErrors| == 0 && dto.itemId in old(shop.items) ==>
      resp.status == OK && resp.body.Id?
      && Upsert(shop.Snapshot(), shop.nextId, resp.body.id)
         == CartAdded(old(shop.Snapshot()), old(shop.nextId), old(shop.MemberOf(email)).id, dto.itemId, dto.count, now)
  {
    if |fieldErrors| > 0 {
      var text := JoinMessages(fieldErrors);
      return Response(Text(text), BAD_REQUEST);
    }
    var r := AddCart(shop, dto.itemId, dto.count, email, now);
    if r.Err? {
      return Response(Thrown(r.error), BAD_REQUEST);
    }
    resp := Response(Id(r.value), OK);
  }

  /**
   * `updateCartItem` (PATCH /cartItem/{id}): a count below 1 answers 400
   * before anything else; an unknown line makes `validateCartItem` throw,
   * uncaught (500); a line of another member answers 403; otherwise the
   * count is replaced and the answer is 200 with the line id.
   */
  method UpdateCartItem(shop: Shop, cartItemId: int, count: Int32, email: string) returns (resp: Response)
    requires shop.Valid() && shop.Registered(email)
    modifies shop
    ensures shop.Valid() && shop.nextId == old(shop.nextId)
    ensures count <= 0 ==>
      resp == Response(Text(MSG_MIN_COUNT), BAD_REQUEST) && shop.Snapshot() == old(shop.Snapshot())
    ensures count > 0 && cartItemId !in old(shop.cartItems) ==>
      resp == Response(Thrown(EntityNotFound), INTERNAL_SERVER_ERROR) && shop.Snapshot() == old(shop.Snapshot())
    ensures count > 0 && cartItemId in old(shop.cartItems) && !old(Owns(shop, email, cartItemId)) ==>
      resp == Response(Text(MSG_NO_EDIT_RIGHT), FORBIDDEN) && shop.Snapshot() == old(shop.Snapshot())
    ensures count > 0 && old(Owns(shop, email, cartItemId)) ==>
      && resp == Response(Id(cartItemId), OK)
      && shop.Snapshot() == old(shop.Snapshot()).(cartItems :=
           old(shop.cartItems)[cartItemId := UpdateCount(old(shop.cartItems)[cartItemId], count)])
  {
    if count <= 0 {
      return Response(Text(MSG_MIN_COUNT), BAD_REQUEST);
    }
    var owner := ValidateCartItem(shop, cartItemId, email);
    if owner.Err? {
      return Response(Thrown(owner.error), INTERNAL_SERVER_ERROR);
    }
    if !owner.value {
      return Response(Text(MSG_NO_EDIT_RIGHT), FORBIDDEN);
    }
    var done := UpdateCartItemCount(shop, cartItemId, count);
    resp := Response(Id(cartItemId), OK);
  }

  /**
   * `deleteCartItem` (DELETE /cartItem/{id}): an unknown line answers 500,
   * a line of another member 403, and both delete nothing; otherwise the
   * line is deleted and the answer is 200 with its id.
   */
  method DeleteCartItem(shop: Shop, cartItemId: int, email: string) returns (resp: Response)
    requires shop.Valid() && shop.Registered(email)
    modifies shop
    ensures shop.Valid() && shop.nextId == old(shop.nextId)
    ensures cartItemId !in old(shop.cartItems) ==>
      resp == Response(Thrown(EntityNotFound), INTERNAL_SERVER_ERROR) && shop.Snapshot() == old(shop.Snapshot())
    ensures cartItemId in old(shop.cartItems) && !old(Owns(shop, email, cartItemId)) ==>
      resp == Response(Text(MSG_NO_EDIT_RIGHT), FORBIDDEN) && shop.Snapshot() == old(shop.Snapshot())
    ensures old(Owns(shop, email, cartItemId)) ==>
      && resp == Response(Id(cartItemId), OK)
      && shop.Snapshot() == old(shop.Snapshot()).(cartItems := old(shop.cartItems) - {cartItemId})
  {
    var owner := ValidateCartItem(shop, cartItemId, email);
    if owner.Err? {
      return Response(Thrown(owner.error), INTERNAL_SERVER_ERROR);
    }
    if !owner.value {
      return Response(Text(MSG_NO_EDIT_RIGHT), FORBIDDEN);
    }
    var done := CartService.DeleteCartItem(shop, cartItemId);
    resp := Response(Id(cartItemId), OK);
  }

  /**
   * The ownership loop of `orderCartItem`: the first selected line that is
   * unknown throws, the first that belongs to another member answers
   * false, and true means every selected line passed.
   */
  function OwnershipCheck(shop: Shop, ids: seq<int>, email: string): (r: Result<bool>)
    reads shop
    requires shop.Valid() && shop.Registered(email)
    ensures r.Err? ==> r.error == EntityNotFound
    ensures r == Ok(false) ==> exists i :: 0 <= i < |ids| && !Owns(shop, email, ids[i])
  {
    if ids == [] then Ok(true)
    else
      match ValidateCartItem(shop, ids[0], email)
      case Err(e) => Err(e)
      case Ok(owned) => if !owned then Ok(false) else OwnershipCheck(shop, ids[1..], email)
  }

  /** The loop passes exactly when the member owns every selected line. */
  lemma {:induction false} OwnershipCheckPasses(shop: Shop, ids: seq<int>, email: string)
    requires shop.Valid() && shop.Registered(email)
    ensures OwnershipCheck(shop, ids, email) == Ok(true) <==> forall i :: 0 <= i < |ids| ==> Owns(shop, email, ids[i])
  {
    if ids != [] {
      var rest := ids[1..];
      OwnershipCheckPasses(shop, rest, email);
      assert forall i :: 1 <= i < |ids| ==> ids[i] == rest[i - 1];
      if OwnershipCheck(shop, ids, email) == Ok(true) {
        assert Owns(shop, email, ids[0]);
        assert forall i :: 0 <= i < |rest| ==> Owns(shop, email, rest[i]);
      }
    }
  }

  /** The loop throws only when a selected line is unknown, and then EntityNotFound. */
  lemma {:induction false} OwnershipCheckThrows(shop: Shop, ids: seq<int>, email: string)
    requires shop.Valid() && shop.Registered(email)
    ensures OwnershipCheck(shop, ids, email).Err? ==>
      OwnershipCheck(shop, ids, email).error == EntityNotFound
      && exists i :: 0 <= i < |ids| && ids[i] !in shop.cartItems
  {
    if ids != [] {
      var rest := ids[1..];
      OwnershipCheckThrows(shop, rest, email);
      if OwnershipCheck(shop, ids, email).Err? && ids[0] in shop.cartItems {
        var i :| 0 <= i < |rest| && rest[i] !in shop.cartItems;
        assert ids[i + 1] !in shop.cartItems;
      }
    }
  }

  /** The ownership loop, line by line, with its early returns. */
  method CheckOwnership(shop: Shop, ids: seq<int>, email: string) returns (r: Result<bool>)
    requires shop.Valid() && shop.Registered(email)
    ensures r == OwnershipCheck(shop, ids, email)
  {
    for i := 0 to |ids|
      invariant OwnershipCheck(shop, ids, email) == OwnershipCheck(shop, ids[i..], email)
    {
      assert ids[i..][1..] == ids[i + 1..];
      var owner := ValidateCartItem(shop, ids[i], email);
      if owner.Err? {
        return Err(owner.error);
      }
      if !owner.value {
        return Ok(false);
      }
    }
    r := Ok(true);
  }

  /** The response of a service call the controller does not guard: 200 with the id, or the uncaught exception. */
  function Reply(r: Result<int>): (resp: Response)
    ensures resp.status == OK <==> r.Ok?
    ensures r.Ok? ==> resp.body == Id(r.value)
    ensures r.Err? ==> resp == Response(Thrown(r.error), INTERNAL_SERVER_ERROR)
  {
    match r
    case Ok(id) => Response(Id(id), OK)
    case Err(e) => Response(Thrown(e), INTERNAL_SERVER_ERROR)
  }

  /**
   * `orderCartItem` (POST /cart/orders): an empty selection answers 403;
   * then every selected line must exist (else 500) and belong to the
   * member (else 403), all checked before anything changes; only then is
   * `orderCartItem` of the service called, its exceptions uncaught.
   */
  method OrderCartItem(shop: Shop, ids: seq<int>, email: string, now: int)
    returns (resp: Response, ghost placed: Result<int>)
    requires shop.Valid() && shop.Registered(email)
    modifies shop, shop.items.Values
    ensures shop.Valid()
    ensures |ids| == 0 ==>
      && resp == Response(Text(MSG_NO_SELECTION), FORBIDDEN)
      && shop.Snapshot() == old(shop.Snapshot()) && shop.nextId == old(shop.nextId)
      && shop.ItemsAre(old(shop.ItemRows()))
    ensures |ids| > 0 && old(OwnershipCheck(shop, ids, email)).Err? ==>
      && resp == Response(Thrown(EntityNotFound), INTERNAL_SERVER_ERROR)
      && shop.Snapshot() == old(shop.Snapshot()) && shop.nextId == old(shop.nextId)
      && shop.ItemsAre(old(shop.ItemRows()))
    ensures |ids| > 0 && old(OwnershipCheck(shop, ids, email)) == Ok(false) ==>
      && resp == Response(Text(MSG_NO_ORDER_RIGHT), FORBIDDEN)
      && shop.Snapshot() == old(shop.Snapshot()) && shop.nextId == old(shop.nextId)
      && shop.ItemsAre(old(shop.ItemRows()))
    ensures |ids| > 0 && old(OwnershipCheck(shop, ids, email)) == Ok(true) ==>
      && AllPresent(old(shop.cartItems), ids)
      && resp == Reply(placed)
      && OrderedLines(placed, ids, DtosFor(old(shop.cartItems), ids), old(shop.Snapshot()), old(shop.nextId), old(shop.ItemRows()), shop)
      && (placed.Ok? ==>
           && placed.value in shop.orders
           && Saved(shop.orders[placed.value], placed.value, old(shop.MemberOf(email)), now)
           && LinesFor(shop.orders[placed.value].orderItems, DtosFor(old(shop.cartItems), ids), shop.items, old(shop.ItemRows())))
  {
    placed := Err(EntityNotFound);
    if |ids| == 0 {
      return Response(Text(MSG_NO_SELECTION), FORBIDDEN), placed;
    }
    ghost var t0, rows0 := shop.Snapshot(), shop.ItemRows();
    var owned := CheckOwnership(shop, ids, email);
    assert shop.Snapshot() == t0 && shop.ItemRows() == rows0;
    if owned.Err? {
      OwnershipCheckThrows(shop, ids, email);
      return Response(Thrown(owned.error), INTERNAL_SERVER_ERROR), placed;
    }
    if !owned.value {
      return Response(Text(MSG_NO_ORDER_RIGHT), FORBIDDEN), placed;
    }
    OwnershipCheckPasses(shop, ids, email);
    assert AllPresent(shop.cartItems, ids);
    var r := CartService.OrderCartItem(shop, ids, email, now);
    placed := r;
    resp := Reply(r);
  }
}
