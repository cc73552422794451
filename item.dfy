/**
 * The catalogue item and its stock ledger (`entity/Item.java`), plus the
 * records of the item tables that the queries read.
 */
module Items {
  import opened Common

  /** Sale state of an item; the services only copy it. */
  datatype ItemSellStatus = ON_SALE | SOLD_OUT | STOP

  /** The admin item form, as the services read it. */
  datatype ItemForm = ItemForm(
    id: int,
    itemNm: string,
    price: Int32,
    stockNumber: Int32,
    itemDetail: string,
    itemSellStatus: ItemSellStatus,
    itemImgIds: seq<int>)

  /** A row of the item table: the persisted state of an `Item`. */
  datatype ItemData = ItemData(
    id: int,
    itemNm: string,
    price: Int32,
    stockNumber: Int32,
    itemDetail: string,
    itemSellStatus: ItemSellStatus)

  const REPRESENTATIVE: string := "Y"
  const NOT_REPRESENTATIVE: string := "N"

  /** A row of the item image table; `repimgYn` is "Y" for the representative image. */
  datatype ItemImg = ItemImg(
    id: int,
    itemId: int,
    oriImgName: string,
    imgName: string,
    imgUrl: string,
    repimgYn: string)

  /** The item form's fields that `updateItem` copies, over an existing id. */
  function FormData(id: int, form: ItemForm): ItemData {
    ItemData(id, form.itemNm, form.price, form.stockNumber, form.itemDetail, form.itemSellStatus)
  }

  class Item {
    const id: int
    var itemNm: string
    var price: Int32
    var stockNumber: Int32
    var itemDetail: string
    var itemSellStatus: ItemSellStatus

    /** The item built from a form and saved under the generated `id`. */
    constructor (id: int, form: ItemForm)
      ensures Data() == FormData(id, form)
    {
      this.id := id;
      itemNm := form.itemNm;
      price := form.price;
      stockNumber := form.stockNumber;
      itemDetail := form.itemDetail;
      itemSellStatus := form.itemSellStatus;
    }

    /** A rollback of this item to a row saved under its own id. */
    method Restore(row: ItemData)
      requires row.id == id
      modifies this
      ensures Data() == row
    {
      itemNm, price, stockNumber := row.itemNm, row.price, row.stockNumber;
      itemDetail, itemSellStatus := row.itemDetail, row.itemSellStatus;
    }

    /** The item's current row. */
    function Data(): ItemData
      reads this
    {
      ItemData(id, itemNm, price, stockNumber, itemDetail, itemSellStatus)
    }

    /** Overwrites every editable field from the form; the id stays. */
    method UpdateItem(form: ItemForm)
      modifies this
      ensures Data() == FormData(id, form)
    {
      itemNm := form.itemNm;
      price := form.price;
      stockNumber := form.stockNumber;
      itemDetail := form.itemDetail;
      itemSellStatus := form.itemSellStatus;
    }

    /**
     * Deducts `n` from the stock unless the Java `int` difference is
     * negative, in which case it throws OutOfStock with the current stock
     * and changes nothing. Only the stock ever changes.
     */
    method RemoveStock(n: Int32) returns (outcome: Outcome)
      modifies this
      ensures var rest := Sub32(old(stockNumber), n);
        if rest < 0 then outcome == Fail(OutOfStock(old(stockNumber))) && stockNumber == old(stockNumber)
        else outcome == Pass && stockNumber == rest
      ensures Data() == old(Data()).(stockNumber := stockNumber)
    {
      var restStock := Sub32(stockNumber, n);
      if restStock < 0 {
        return Fail(OutOfStock(stockNumber));
      }
      stockNumber := restStock;
      outcome := Pass;
    }

    /** Adds `n` to the stock with no upper bound (Java `+=` wraps). */
    method AddStock(n: Int32)
      modifies this
      ensures stockNumber == Add32(old(stockNumber), n)
      ensures Data() == old(Data()).(stockNumber := stockNumber)
    {
      stockNumber := Add32(stockNumber, n);
    }
  }

  /** A deduction no larger than a non-negative stock succeeds exactly. */
  lemma DeductionWithinStock(stock: Int32, n: Int32)
    requires 0 <= n <= stock
    ensures Sub32(stock, n) == stock - n >= 0
  {
  }

  /** A deduction larger than a non-negative stock is refused. */
  lemma DeductionBeyondStock(stock: Int32, n: Int32)
    requires 0 <= stock < n
    ensures Sub32(stock, n) < 0
  {
  }

  /**
   * The guard tests the wrapped difference: from a negative stock a
   * positive request can pass it and leave the stock at its maximum.
   */
  lemma NegativeStockPassesGuard()
    ensures Sub32(INT_MIN, 1) == INT_MAX
  {
  }

  /** `addStock` has no bound: past INT_MAX the stock wraps to a negative value. */
  lemma AddStockOverflows(stock: Int32, n: Int32)
    requires 0 <= stock && 0 <= n && stock + n > INT_MAX
    ensures Add32(stock, n) == stock + n - MODULUS < 0
  {
    assert 0 <= stock + n < MODULUS;
  }

  /** removeStock(n) then addStock(n) leaves the item as it was, on either path. */
  method RemoveThenAddStock(item: Item, n: Int32) returns (outcome: Outcome)
    modifies item
    ensures outcome.Pass? <==> Sub32(old(item.stockNumber), n) >= 0
    ensures item.Data() == old(item.Data())
  {
    outcome := item.RemoveStock(n);
    if outcome.Pass? {
      item.AddStock(n);
      SubThenAdd32(old(item.stockNumber), n);
    }
  }
}
