/**
 * The cart page query of `repository/CartItemRepository.java`: the lines of
 * one cart joined with the representative images of their items, newest
 * line first, projected onto `CartDetailDto`.
 */
module CartItemRepository {
  import opened Common
  import opened Seqs
  import opened Items
  import opened Carts
  import opened Store

  /** A row of the join `CartItem ci, ItemImg im`. */
  datatype JoinRow = JoinRow(line: CartItem, img: ItemImg)

  /** The ordering key of the query: `order by ci.regTime desc`. */
  function RegTime(x: JoinRow): int {
    x.line.regTime
  }

  /** `img` is the row under some key of `imgKeys`. */
  ghost predicate ImgAmong(img: ItemImg, itemImgs: map<int, ItemImg>, imgKeys: seq<int>) {
    exists j :: 0 <= j < |imgKeys| && imgKeys[j] in itemImgs && itemImgs[imgKeys[j]] == img
  }

  /** `line` is the row under some key of `lineKeys`. */
  ghost predicate LineAmong(line: CartItem, cartItems: map<int, CartItem>, lineKeys: seq<int>) {
    exists j :: 0 <= j < |lineKeys| && lineKeys[j] in cartItems && cartItems[lineKeys[j]] == line
  }

  /** The join rows of one cart line: one per representative image of its item, in image key order. */
  function ImgRows(line: CartItem, itemImgs: map<int, ItemImg>, imgKeys: seq<int>): (r: seq<JoinRow>)
    ensures forall x :: x in r <==>
      x.line == line && IsRepImg(x.img, line.itemId) && ImgAmong(x.img, itemImgs, imgKeys)
  {
    if imgKeys == [] then []
    else
      var k := imgKeys[0];
      var rest := ImgRows(line, itemImgs, imgKeys[1..]);
      assert forall img :: ImgAmong(img, itemImgs, imgKeys) <==>
        (k in itemImgs && itemImgs[k] == img) || ImgAmong(img, itemImgs, imgKeys[1..])
      by {
        forall img
          ensures ImgAmong(img, itemImgs, imgKeys) ==>
            (k in itemImgs && itemImgs[k] == img) || ImgAmong(img, itemImgs, imgKeys[1..])
        {
          if ImgAmong(img, itemImgs, imgKeys) {
            var j :| 0 <= j < |imgKeys| && imgKeys[j] in itemImgs && itemImgs[imgKeys[j]] == img;
            if j > 0 {
              assert imgKeys[1..][j - 1] == imgKeys[j];
            }
          }
        }
        forall img | ImgAmong(img, itemImgs, imgKeys[1..]) ensures ImgAmong(img, itemImgs, imgKeys) {
          var j :| 0 <= j < |imgKeys[1..]| && imgKeys[1..][j] in itemImgs && itemImgs[imgKeys[1..][j]] == img;
          assert imgKeys[j + 1] == imgKeys[1..][j];
        }
      }
      (if k in itemImgs && IsRepImg(itemImgs[k], line.itemId) then [JoinRow(line, itemImgs[k])] else []) + rest
  }

  /**
   * The join before sorting: the lines of cart `cartId` among `lineKeys`,
   * in key order, each with the representative images of its item.
   */
  function JoinScan(
    cartItems: map<int, CartItem>, itemImgs: map<int, ItemImg>, cartId: int,
    lineKeys: seq<int>, imgKeys: seq<int>): (r: seq<JoinRow>)
    ensures forall x :: x in r <==>
      && x.line.cartId == cartId && LineAmong(x.line, cartItems, lineKeys)
      && IsRepImg(x.img, x.line.itemId) && ImgAmong(x.img, itemImgs, imgKeys)
  {
    if lineKeys == [] then []
    else
      var k := lineKeys[0];
      var rest := JoinScan(cartItems, itemImgs, cartId, lineKeys[1..], imgKeys);
      assert forall line :: LineAmong(line, cartItems, lineKeys) <==>
        (k in cartItems && cartItems[k] == line) || LineAmong(line, cartItems, lineKeys[1..])
      by {
        forall line
          ensures LineAmong(line, cartItems, lineKeys) ==>
            (k in cartItems && cartItems[k] == line) || LineAmong(line, cartItems, lineKeys[1..])
        {
          if LineAmong(line, cartItems, lineKeys) {
            var j :| 0 <= j < |lineKeys| && lineKeys[j] in cartItems && cartItems[lineKeys[j]] == line;
            if j > 0 {
              assert lineKeys[1..][j - 1] == lineKeys[j];
            }
          }
        }
        forall line | LineAmong(line, cartItems, lineKeys[1..]) ensures LineAmong(line, cartItems, lineKeys) {
          var j :| 0 <= j < |lineKeys[1..]| && lineKeys[1..][j] in cartItems && cartItems[lineKeys[1..][j]] == line;
          assert lineKeys[j + 1] == lineKeys[1..][j];
        }
      }
      (if k in cartItems && cartItems[k].cartId == cartId then ImgRows(cartItems[k], itemImgs, imgKeys) else [])
        + rest
  }

  /**
   * The join rows of `findCartDetailDtoList(cartId)`, sorted by line
   * registration time, newest first; rows with equal times keep scan order.
   */
  function CartDetailRows(cartItems: map<int, CartItem>, itemImgs: map<int, ItemImg>, bound: nat, cartId: int)
    : (r: seq<JoinRow>)
    ensures SortedDesc(r, RegTime)
    ensures forall x :: x in r <==>
      && x.line.cartId == cartId && Stored(x.line, cartItems, bound)
      && IsRepImg(x.img, x.line.itemId) && Stored(x.img, itemImgs, bound)
  {
    var scan := JoinScan(cartItems, itemImgs, cartId, KeysBelow(cartItems.Keys, bound), KeysBelow(itemImgs.Keys, bound));
    var r := SortDesc(scan, RegTime);
    assert forall x :: x in r <==> x in scan by {
      forall x: JoinRow ensures x in r <==> x in scan {
        assert x in r <==> x in multiset(r);
        assert x in scan <==> x in multiset(scan);
      }
    }
    assert forall line: CartItem ::
      LineAmong(line, cartItems, KeysBelow(cartItems.Keys, bound)) <==> Stored(line, cartItems, bound)
    by {
      forall line: CartItem
        ensures LineAmong(line, cartItems, KeysBelow(cartItems.Keys, bound)) <==> Stored(line, cartItems, bound)
      {
        ScanReachesStored(line, cartItems, bound);
      }
    }
    assert forall img: ItemImg ::
      ImgAmong(img, itemImgs, KeysBelow(itemImgs.Keys, bound)) <==> Stored(img, itemImgs, bound)
    by {
      forall img: ItemImg
        ensures ImgAmong(img, itemImgs, KeysBelow(itemImgs.Keys, bound)) <==> Stored(img, itemImgs, bound)
      {
        ScanReachesStored(img, itemImgs, bound);
      }
    }
    r
  }

  /** Every joined line names an item of `rows` when every stored line does. */
  lemma JoinedItemsStored(
    cartItems: map<int, CartItem>, itemImgs: map<int, ItemImg>, rows: map<int, ItemData>, bound: nat, cartId: int)
    requires forall k :: k in cartItems ==> cartItems[k].itemId in rows
    ensures forall x :: x in CartDetailRows(cartItems, itemImgs, bound, cartId) ==> x.line.itemId in rows
  {
    forall x | x in CartDetailRows(cartItems, itemImgs, bound, cartId) ensures x.line.itemId in rows {
      var k :| k in cartItems && 0 <= k < bound && cartItems[k] == x.line;
    }
  }

  /** `new CartDetailDto(ci.id, i.itemNm, i.price, ci.count, im.imgUrl)`, reading the item row. */
  function Detail(x: JoinRow, rows: map<int, ItemData>): CartDetail
    requires x.line.itemId in rows
  {
    CartDetail(x.line.id, rows[x.line.itemId].itemNm, rows[x.line.itemId].price, x.line.count, x.img.imgUrl)
  }

  /**
   * `findCartDetailDtoList(cartId)`: one record per joined row, in the
   * query's order. `rows` is the item table (`join ci.item i`); the
   * foreign key from a line to its item makes the join total.
   */
  function FindCartDetailDtoList(
    cartItems: map<int, CartItem>, itemImgs: map<int, ItemImg>, rows: map<int, ItemData>, bound: nat, cartId: int)
    : (r: seq<CartDetail>)
    requires forall k :: k in cartItems ==> cartItems[k].itemId in rows
    ensures |r| == |CartDetailRows(cartItems, itemImgs, bound, cartId)|
    ensures forall i :: 0 <= i < |r| ==>
      var x := CartDetailRows(cartItems, itemImgs, bound, cartId)[i];
      x.line.itemId in rows && r[i] == Detail(x, rows)
  {
    var joined := CartDetailRows(cartItems, itemImgs, bound, cartId);
    JoinedItemsStored(cartItems, itemImgs, rows, bound, cartId);
    seq(|joined|, i requires 0 <= i < |joined| => assert joined[i] in joined; Detail(joined[i], rows))
  }
}
