/**
 * The order aggregate (`entity/Order.java`) and its lines
 * (`entity/OrderItem.java`). A line snapshots the item's price when it is
 * created and deducts its count from the item's stock; cancelling puts the
 * count back. All arithmetic is Java `int` arithmetic.
 */
module Orders {
  import opened Common
  import opened Items
  import opened Members

  datatype OrderStatus = ORDER | CANCEL

  class OrderItem {
    const item: Item
    const count: Int32
    /** The item's price when the line was created. */
    const orderPrice: Int32
    /** The owning order, set when the line is attached to one. */
    var order: Order?

    /** A detached line; only `CreateOrderItem` builds one in the source. */
    constructor (item: Item, count: Int32, orderPrice: Int32)
      ensures this.item == item && this.count == count && this.orderPrice == orderPrice
      ensures order == null
    {
      this.item := item;
      this.count := count;
      this.orderPrice := orderPrice;
      order := null;
    }

    /**
     * A line for `count` units of `item` at its current price. The stock
     * deduction either succeeds, or throws OutOfStock, leaves the stock as
     * it was and returns no line. Nothing but the stock changes.
     */
    static method CreateOrderItem(item: Item, count: Int32) returns (r: Result<OrderItem>)
      modifies item
      ensures var rest := Sub32(old(item.stockNumber), count);
        if rest < 0 then
          r == Err(OutOfStock(old(item.stockNumber))) && item.stockNumber == old(item.stockNumber)
        else
          && r.Ok? && fresh(r.value)
          && r.value.item == item && r.value.count == count
          && r.value.orderPrice == old(item.price) && r.value.order == null
          && item.stockNumber == rest
      ensures item.Data() == old(item.Data()).(stockNumber := item.stockNumber)
    {
      var line := new OrderItem(item, count, item.price);
      var outcome := item.RemoveStock(count);
      if outcome.Fail? {
        return Err(outcome.error);
      }
      r := Ok(line);
    }

    /**
     * Java `orderPrice * count`: reads only the line's own snapshot, and is
     * the plain product whenever that fits an `int`.
     */
    function TotalPrice(): (total: Int32)
      ensures INT_MIN <= orderPrice * count <= INT_MAX ==> total == orderPrice * count
    {
      Mul32(orderPrice, count)
    }

    /** Puts the line's count back into its item's stock (Java `+=`). */
    method Cancel()
      modifies item
      ensures item.stockNumber == Add32(old(item.stockNumber), count)
      ensures item.Data() == old(item.Data()).(stockNumber := item.stockNumber)
    {
      item.AddStock(count);
    }
  }

  /** The items that a list of lines refers to. */
  ghost function ItemsOf(lines: seq<OrderItem>): set<Item> {
    set l | l in lines :: l.item
  }

  /** The exact (unbounded) sum of the lines' Java totals. */
  function LinesTotal(lines: seq<OrderItem>): int {
    if lines == [] then 0
    else LinesTotal(lines[..|lines| - 1]) + lines[|lines| - 1].TotalPrice()
  }

  /** What the lines are worth in exact arithmetic: the sum of price times count. */
  function ExactTotal(lines: seq<OrderItem>): int {
    if lines == [] then 0
    else ExactTotal(lines[..|lines| - 1]) + lines[|lines| - 1].orderPrice * lines[|lines| - 1].count
  }

  /** Every line's own total fits an `int`. */
  predicate LineTotalsFit(lines: seq<OrderItem>) {
    forall l :: l in lines ==> INT_MIN <= l.orderPrice * l.count <= INT_MAX
  }

  /** When no line's product overflows, the sum of the line totals is the exact value of the lines. */
  lemma {:induction false} LinesTotalExact(lines: seq<OrderItem>)
    requires LineTotalsFit(lines)
    ensures LinesTotal(lines) == ExactTotal(lines)
  {
    if lines != [] {
      var front := lines[..|lines| - 1];
      assert forall l :: l in front ==> l in lines;
      LinesTotalExact(front);
    }
  }

  /** How many units of `it` the lines hold altogether (exact sum). */
  function CountFor(lines: seq<OrderItem>, it: Item): int {
    if lines == [] then 0
    else
      var last := lines[|lines| - 1];
      CountFor(lines[..|lines| - 1], it) + (if last.item == it then last.count else 0)
  }

  /**
   * The stock of `it`, starting from `s0`, after the first `n` lines have
   * been cancelled one by one with Java `+=`.
   */
  ghost function Restocked(s0: Int32, lines: seq<OrderItem>, n: nat, it: Item): Int32
    requires n <= |lines|
  {
    if n == 0 then s0
    else
      var prev := Restocked(s0, lines, n - 1, it);
      if lines[n - 1].item == it then Add32(prev, lines[n - 1].count) else prev
  }

  class Order {
    /** 0 until the order is saved and receives its generated id. */
    var id: int
    var member: Member
    var orderDate: int
    var orderStatus: OrderStatus
    var orderItems: seq<OrderItem>

    /** `new Order()` with its member set: no lines and no id yet. */
    constructor (member: Member)
      ensures this.member == member && orderItems == [] && id == 0
    {
      id := 0;
      this.member := member;
      orderDate := 0;
      orderStatus := ORDER;  // Java leaves it null; a placeholder that `createOrder` overwrites
      orderItems := [];
    }

    /** Appends one line and points the line back at this order. */
    method AddOrderItem(line: OrderItem)
      modifies this, line
      ensures orderItems == old(orderItems) + [line]
      ensures line.order == this
      ensures id == old(id) && member == old(member)
      ensures orderDate == old(orderDate) && orderStatus == old(orderStatus)
    {
      orderItems := orderItems + [line];
      line.order := this;
    }

    /**
     * A fresh order for `member` holding `lines` in their given order, with
     * status ORDER and date `now`. Any list is accepted, the empty one too,
     * and no stock is touched: the lines were deducted when created.
     */
    static method CreateOrder(member: Member, lines: seq<OrderItem>, now: int) returns (o: Order)
      modifies set l | l in lines
      ensures fresh(o)
      ensures o.member == member && o.orderItems == lines && o.id == 0
      ensures o.orderStatus == ORDER && o.orderDate == now
      ensures forall l :: l in lines ==> l.order == o
      ensures forall l :: l in lines ==> unchanged(l.item)
    {
      o := new Order(member);
      for i := 0 to |lines|
        invariant fresh(o)
        invariant o.orderItems == lines[..i] && o.member == member && o.id == 0
        invariant forall j :: 0 <= j < i ==> lines[j].order == o
      {
        o.AddOrderItem(lines[i]);
      }
      o.orderStatus := ORDER;
      o.orderDate := now;
    }

    /** The running Java `int` sum of the line totals: the exact sum, wrapped. */
    method GetTotalPrice() returns (total: Int32)
      ensures total == Wrap32(LinesTotal(orderItems))
    {
      total := 0;
      for i := 0 to |orderItems|
        invariant total == Wrap32(LinesTotal(orderItems[..i]))
      {
        assert orderItems[..i + 1][..i] == orderItems[..i];
        Wrap32Absorb(LinesTotal(orderItems[..i]), orderItems[i].TotalPrice());
        total := Add32(total, orderItems[i].TotalPrice());
      }
      assert orderItems[..|orderItems|] == orderItems;
    }

    /**
     * Sets status CANCEL without looking at the current one, and gives every
     * line's count back to its item. An item on several lines gets all of
     * them back. Nothing else about the order or the items changes.
     */
    method CancelOrder()
      modifies this, ItemsOf(orderItems)
      ensures orderStatus == CANCEL
      ensures orderItems == old(orderItems) && member == old(member)
      ensures orderDate == old(orderDate) && id == old(id)
      ensures forall it :: it in ItemsOf(orderItems) ==>
        it.Data() == old(it.Data()).(stockNumber := Wrap32(old(it.stockNumber) + CountFor(orderItems, it)))
    {
      orderStatus := CANCEL;
      CancelLines(orderItems);
      assert orderItems[..|orderItems|] == orderItems;
      forall it | it in ItemsOf(orderItems)
        ensures it.stockNumber == Wrap32(old(it.stockNumber) + CountFor(orderItems, it))
      {
        RestockedIsWrappedSum(old(it.stockNumber), orderItems, |orderItems|, it);
      }
    }
  }

  /** The loop of `cancelOrder`: cancels the lines in list order. */
  method CancelLines(lines: seq<OrderItem>)
    modifies ItemsOf(lines)
    ensures forall it :: it in ItemsOf(lines) ==>
      it.Data() == old(it.Data()).(stockNumber := Restocked(old(it.stockNumber), lines, |lines|, it))
  {
    for i := 0 to |lines|
      invariant forall it :: it in ItemsOf(lines) ==>
        it.Data() == old(it.Data()).(stockNumber := Restocked(old(it.stockNumber), lines, i, it))
    {
      assert lines[i].item in ItemsOf(lines);
      lines[i].Cancel();
    }
  }

  /** Cancelling lines one at a time adds their exact count, wrapped once. */
  lemma {:induction false} RestockedIsWrappedSum(s0: Int32, lines: seq<OrderItem>, n: nat, it: Item)
    requires n <= |lines|
    ensures Restocked(s0, lines, n, it) == Wrap32(s0 + CountFor(lines[..n], it))
  {
    if n == 0 {
      assert lines[..0] == [];
    } else {
      RestockedIsWrappedSum(s0, lines, n - 1, it);
      CountForStep(lines, n - 1, it);
      if lines[n - 1].item == it {
        Wrap32Absorb(s0 + CountFor(lines[..n - 1], it), lines[n - 1].count);
      }
    }
  }

  /**
   * A line built by `createOrderItem` totals the item's price at that
   * moment times the count, whenever that product fits an `int`.
   */
  method NewLineTotal(item: Item, count: Int32) returns (r: Result<OrderItem>, total: Int32)
    modifies item
    ensures r.Ok? ==> total == r.value.TotalPrice()
    ensures r.Ok? && INT_MIN <= old(item.price) * count <= INT_MAX ==> total == old(item.price) * count
  {
    r := OrderItem.CreateOrderItem(item, count);
    total := 0;
    if r.Ok? {
      total := r.value.TotalPrice();
    }
  }

  /**
   * `getTotalPrice` of an order is the exact sum of price times count over
   * its lines whenever neither a line's product nor that sum overflows.
   */
  method OrderTotal(o: Order) returns (total: Int32)
    requires LineTotalsFit(o.orderItems) && INT_MIN <= ExactTotal(o.orderItems) <= INT_MAX
    ensures total == ExactTotal(o.orderItems)
  {
    total := o.GetTotalPrice();
    LinesTotalExact(o.orderItems);
  }

  /** Extending a prefix by one line adds that line's count for its own item. */
  lemma CountForStep(lines: seq<OrderItem>, i: nat, it: Item)
    requires i < |lines|
    ensures CountFor(lines[..i + 1], it)
      == CountFor(lines[..i], it) + (if lines[i].item == it then lines[i].count else 0)
  {
    assert lines[..i + 1][..i] == lines[..i];
  }

  /** Lines that never name `it` hold none of it. */
  lemma {:induction false} CountForAbsent(lines: seq<OrderItem>, it: Item)
    requires it !in ItemsOf(lines)
    ensures CountFor(lines, it) == 0
  {
    if lines != [] {
      var front := lines[..|lines| - 1];
      assert forall l :: l in front ==> l in lines;
      CountForAbsent(front, it);
    }
  }

  /** A count summed over a concatenation splits into the two parts. */
  lemma {:induction false} CountForAppend(a: seq<OrderItem>, b: seq<OrderItem>, it: Item)
    ensures CountFor(a + b, it) == CountFor(a, it) + CountFor(b, it)
    decreases |b|
  {
    if b == [] {
      assert a + b == a;
    } else {
      var b' := b[..|b| - 1];
      assert (a + b)[..|a + b| - 1] == a + b';
      CountForAppend(a, b', it);
    }
  }

  /**
   * Creating a line and cancelling it leaves the item's stock where it
   * started; when the deduction is refused there is no line to cancel.
   */
  method CreateThenCancelLine(item: Item, count: Int32) returns (r: Result<OrderItem>)
    modifies item
    ensures r.Ok? <==> Sub32(old(item.stockNumber), count) >= 0
    ensures item.Data() == old(item.Data())
  {
    r := OrderItem.CreateOrderItem(item, count);
    if r.Ok? {
      r.value.Cancel();
      SubThenAdd32(old(item.stockNumber), count);
    }
  }

  /**
   * Cancelling an order twice is not refused: the second call gives each
   * item on the order its lines' counts back once more.
   */
  method CancelTwice(order: Order, it: Item)
    requires it in ItemsOf(order.orderItems)
    modifies order, ItemsOf(order.orderItems)
    ensures order.orderStatus == CANCEL && order.orderItems == old(order.orderItems)
    ensures it.stockNumber == Wrap32(old(it.stockNumber) + 2 * CountFor(order.orderItems, it))
  {
    ghost var s0, c := it.stockNumber, CountFor(order.orderItems, it);
    order.CancelOrder();
    ghost var s1 := it.stockNumber;
    assert s1 == Wrap32(s0 + c);
    order.CancelOrder();
    assert it.stockNumber == Wrap32(s1 + c);
    RestoreTwice(s0, c);
  }

  /** Two wrapped additions of `c` are one wrapped addition of `2 * c`. */
  lemma RestoreTwice(s0: int, c: int)
    ensures Wrap32(Wrap32(s0 + c) + c) == Wrap32(s0 + 2 * c)
  {
    Wrap32Absorb(s0 + c, c);
  }

  /** An order with no lines is created and totals 0. */
  method EmptyOrderAccepted(member: Member, now: int) returns (status: OrderStatus, size: nat, total: Int32)
    ensures status == ORDER && size == 0 && total == 0
  {
    var o := Order.CreateOrder(member, [], now);
    status, size := o.orderStatus, |o.orderItems|;
    total := o.GetTotalPrice();
  }

  /**
   * The order total reads the prices the lines captured: changing the
   * item's price afterwards does not change it.
   */
  method TotalIgnoresLaterPriceChange(order: Order, item: Item, form: ItemForm)
    returns (before: Int32, after: Int32)
    requires item in ItemsOf(order.orderItems)
    modifies item
    ensures before == after == Wrap32(LinesTotal(order.orderItems))
  {
    before := order.GetTotalPrice();
    item.UpdateItem(form);
    after := order.GetTotalPrice();
  }
}
